/** The service over the repository and the object store: uploads, rotation, cleanup. */
module LogbookService {
  import opened Common
  import opened Turns
  import opened Bytes
  import opened Database
  import opened Repositories
  import opened Uploads
  import R = ImageRotation

  /** How a call to the outside ends: it works, it fails without effect, or its effect
      lands although it reports a failure. */
  datatype Fault = Works | FailsFirst | FailsLast

  const RESERVATION := 24 * 60 * 60
  const BATCH := 100

  class ObjectStore {
    var objects: map<Key, Data>

    method Put(key: Key, file: Data, fault: Fault) returns (ok: bool)
      modifies this
      ensures ok == fault.Works?
      ensures objects == if fault.FailsFirst? then old(objects) else old(objects)[key := file]
    {
      if !fault.FailsFirst? {
        objects := objects[key := file];
      }
      ok := fault.Works?;
    }

    method Open(key: Key, fault: Fault) returns (file: Option<Data>)
      ensures file == if fault.Works? && key in objects then Some(objects[key]) else None
    {
      file := if fault.Works? && key in objects then Some(objects[key]) else None;
    }

    method Delete(key: Key, fault: Fault) returns (ok: bool)
      modifies this
      ensures ok == fault.Works?
      ensures objects == if fault.FailsFirst? then old(objects) else old(objects) - {key}
    {
      if !fault.FailsFirst? {
        objects := objects - {key};
      }
      ok := fault.Works?;
    }
  }

  /** How many puts of a batch take effect: the first failure ends the batch. */
  function Landed(faults: seq<Fault>): (n: nat)
    ensures n <= |faults|
  {
    if faults == [] || faults[0].FailsFirst? then 0
    else if faults[0].FailsLast? then 1
    else 1 + Landed(faults[1..])
  }

  predicate AllWork(faults: seq<Fault>) {
    forall i :: 0 <= i < |faults| ==> faults[i] == Works
  }

  function PutAll(objects: map<Key, Data>, news: seq<NewPhoto>, files: seq<Data>, n: nat): map<Key, Data>
    requires n <= |news| && n <= |files|
  {
    if n == 0 then objects else PutAll(objects, news, files, n - 1)[news[n - 1].key := files[n - 1]]
  }

  lemma {:induction false} LandedAfter(faults: seq<Fault>, n: nat)
    requires n < |faults| && AllWork(faults[..n]) && faults[n] != Works
    ensures Landed(faults) == if faults[n].FailsLast? then n + 1 else n
  {
    if n > 0 {
      assert faults[..n][0] == faults[0] && faults[1..][n - 1] == faults[n] && faults[1..][..n - 1] == faults[..n][1..];
      LandedAfter(faults[1..], n - 1);
    }
  }

  lemma {:induction false} LandedAll(faults: seq<Fault>)
    requires AllWork(faults)
    ensures Landed(faults) == |faults|
  {
    if faults != [] {
      LandedAll(faults[1..]);
    }
  }

  /** A key that is not put keeps its object, or none. */
  lemma {:induction false} PutAllElsewhere(objects: map<Key, Data>, news: seq<NewPhoto>, files: seq<Data>, n: nat, k: Key)
    requires n <= |news| == |files| && forall i :: 0 <= i < n ==> news[i].key != k
    ensures var r := PutAll(objects, news, files, n); (k in r <==> k in objects) && (k in objects ==> r[k] == objects[k])
  {
    if n > 0 {
      PutAllElsewhere(objects, news, files, n - 1, k);
    }
  }

  /** A key that is put holds its file. */
  lemma {:induction false} PutAllAt(objects: map<Key, Data>, news: seq<NewPhoto>, files: seq<Data>, n: nat, i: nat)
    requires i < n <= |news| == |files| && Distinct(KeysOf(news))
    ensures var r := PutAll(objects, news, files, n); news[i].key in r && r[news[i].key] == files[i]
  {
    if i < n - 1 {
      PutAllAt(objects, news, files, n - 1, i);
      assert KeysOf(news)[i] != KeysOf(news)[n - 1];
    }
  }

  /** The files of distinct keys do not overwrite each other, nor anything else. */
  lemma PutAllStores(objects: map<Key, Data>, news: seq<NewPhoto>, files: seq<Data>, n: nat)
    requires n <= |news| == |files| && Distinct(KeysOf(news))
    ensures var r := PutAll(objects, news, files, n);
      && (forall i :: 0 <= i < n ==> news[i].key in r && r[news[i].key] == files[i])
      && (forall k :: k in objects && k !in KeysOf(news) ==> k in r && r[k] == objects[k])
      && (forall k :: k in r ==> k in objects || k in KeysOf(news[..n]))
  {
    var r := PutAll(objects, news, files, n);
    forall i | 0 <= i < n ensures news[i].key in r && r[news[i].key] == files[i] {
      PutAllAt(objects, news, files, n, i);
    }
    forall k | k !in KeysOf(news[..n]) ensures (k in r <==> k in objects) && (k in objects ==> r[k] == objects[k]) {
      assert forall i :: 0 <= i < n ==> KeysOf(news[..n])[i] == news[i].key;
      PutAllElsewhere(objects, news, files, n, k);
    }
    assert forall i :: 0 <= i < n ==> KeysOf(news[..n])[i] == KeysOf(news)[i];
  }

  /** Rows whose removal a cleanup has finished. */
  function Finished(keys: seq<Key>, erased: nat -> Fault, completed: nat -> Fault, n: nat): set<Key>
    requires n <= |keys|
  {
    set i | 0 <= i < n && erased(i).Works? && !completed(i).FailsFirst? :: keys[i]
  }

  function Erased(keys: seq<Key>, erased: nat -> Fault, n: nat): set<Key>
    requires n <= |keys|
  {
    set i | 0 <= i < n && !erased(i).FailsFirst? :: keys[i]
  }

  class Logbooks {
    const repo: Repository
    const store: ObjectStore
    const lib: R.Library<int>
    const limits: R.Limits

    constructor (repo: Repository, store: ObjectStore, lib: R.Library<int>, limits: R.Limits)
      ensures this.repo == repo && this.store == store && this.lib == lib && this.limits == limits
    {
      this.repo, this.store, this.lib, this.limits := repo, store, lib, limits;
    }

    /** Reserves every key before the first object is stored, then stores the files in
        order until one put fails. */
    method StorePhotos(news: seq<NewPhoto>, files: seq<Data>, now: int, faults: seq<Fault>) returns (failure: Option<Error>)
      requires |news| == |files| == |faults|
      modifies repo, store
      ensures repo.Snapshot() == Repository.Outcome(old(repo.Snapshot()), Reservation(old(repo.Snapshot()), news, now))
      ensures Reservation(old(repo.Snapshot()), news, now).Err? ==>
        failure == Some(Error.Conflict) && store.objects == old(store.objects)
      ensures Reservation(old(repo.Snapshot()), news, now).Ok? ==> (failure == None <==> AllWork(faults))
      ensures Reservation(old(repo.Snapshot()), news, now).Ok? ==>
        store.objects == PutAll(old(store.objects), news, files, Landed(faults))
    {
      var reserved := repo.ReserveUploads(KeysOf(news), now + RESERVATION);
      if !reserved {
        return Some(Error.Conflict);
      }
      for i := 0 to |news|
        invariant AllWork(faults[..i]) && repo.Snapshot() == Reservation(old(repo.Snapshot()), news, now).value
        invariant store.objects == PutAll(old(store.objects), news, files, i)
      {
        var stored := store.Put(news[i].key, files[i], faults[i]);
        if !stored {
          LandedAfter(faults, i);
          return Some(StorageFailure);
        }
        assert faults[..i + 1] == faults[..i] + [faults[i]];
      }
      assert faults[..|news|] == faults;
      LandedAll(faults);
      return None;
    }

    /** Stores prepared photos and inserts their logbook. */
    method CreatePrepared(id: Id, slot: Slot, news: seq<NewPhoto>, files: seq<Data>, now: int, later: int, faults: seq<Fault>)
      returns (failure: Option<Error>)
      requires |news| == |files| == |faults|
      modifies repo, store
      ensures failure.None? <==> AllWork(faults) && Creates(old(repo.Snapshot()), id, slot, news, now, later)
      ensures failure.Some? ==> repo.photos == old(repo.photos) && repo.books == old(repo.books) && repo.markers == old(repo.markers)
      ensures forall k :: k in store.objects && k !in old(store.objects) ==>
        k in KeysOf(news) && (failure.Some? ==> k in repo.deletions)
      ensures failure.None? ==>
        && id in repo.books && repo.books[id] == slot
        && Extends(old(repo.photos), repo.photos, Parent(Logbook, id), news, 0)
        && forall i :: 0 <= i < |news| ==> news[i].key in store.objects && store.objects[news[i].key] == files[i]
    {
      ghost var before := repo.Snapshot();
      ghost var reserved := Reservation(before, news, now);
      failure := StorePhotos(news, files, now, faults);
      if reserved.Ok? {
        ReservedKeys(before, news, now);
        ReservedCreates(before, id, slot, news, now, later);
        PutAllStores(old(store.objects), news, files, Landed(faults));
        LandedKeys(news, Landed(faults));
      }
      if Creates(before, id, slot, news, now, later) {
        CreatesReserves(before, id, slot, news, now, later);
      }
      if failure.Some? {
        return;
      }
      LandedAll(faults);
      ghost var db := repo.Snapshot();
      failure := repo.Create(id, slot, news, later);
      if failure.None? {
        CreateAttaches(db, id, slot, news, later);
        CreatedBook(db, id, slot, news, later);
      }
    }

    /** The checks of a creation that look at no file. A date that is not one is None. */
    method CheckCreation(machine: int, shift: int, date: Option<int>, count: nat, perUpload: nat, perBook: nat)
      returns (failure: Option<Error>)
      ensures failure.None? <==>
        && machine > 0 && shift > 0 && date.Some? && 1 <= count <= perUpload && count <= perBook
        && machine in repo.machines && shift in repo.shifts
      ensures failure.None? || failure.value ==
        if machine <= 0 || shift <= 0 || date.None? || count == 0 || count > perUpload then Validation
        else if count > perBook then TooManyPhotos
        else InvalidReference
    {
      if machine <= 0 || shift <= 0 {
        return Some(Validation);
      }
      if date.None? {
        return Some(Validation);
      }
      if count == 0 || count > perUpload {
        return Some(Validation);
      }
      if count > perBook {
        return Some(TooManyPhotos);
      }
      if machine !in repo.machines || shift !in repo.shifts {
        return Some(InvalidReference);
      }
      return None;
    }

    /** A failed upload leaves no row behind, only reservations and objects under them;
        a finished one has a row and an object for every photo, page by page. */
    method Create(id: Id, user: Id, machine: int, shift: int, date: Option<int>, uploads: seq<Upload>, ids: seq<Id>,
                  sha: Data -> string, cancelled: nat -> bool, perUpload: nat, perBook: nat,
                  now: int, later: int, faults: seq<Fault>) returns (failure: Option<Error>)
      requires |uploads| == |ids| == |faults|
      modifies repo, store
      ensures failure.None? <==>
        && machine > 0 && shift > 0 && date.Some? && 1 <= |uploads| <= perUpload && |uploads| <= perBook
        && (forall i :: 0 <= i < |uploads| ==> !cancelled(i)) && AllWork(faults)
        && exists news :: IsPrepared(lib, limits, Parent(Logbook, id), user, sha, uploads, ids, news)
             && Creates(old(repo.Snapshot()), id, Slot(machine, date.value, shift), news, now, later)
      ensures failure.Some? ==> repo.photos == old(repo.photos) && repo.books == old(repo.books) && repo.markers == old(repo.markers)
      ensures forall k :: k in store.objects && k !in old(store.objects) && failure.Some? ==> k in repo.deletions
      ensures failure.None? ==>
        && machine > 0 && shift > 0 && date.Some? && 1 <= |uploads| <= perUpload && |uploads| <= perBook
        && id in repo.books && repo.books[id] == Slot(machine, date.value, shift)
        && repo.photos.Keys == old(repo.photos).Keys + SetOf(ids)
        && forall i :: 0 <= i < |uploads| ==> Stands(repo.photos, store.objects, id, user, sha, uploads[i], ids[i], i + 1)
    {
      failure := CheckCreation(machine, shift, date, |uploads|, perUpload, perBook);
      if failure.Some? {
        return;
      }
      var prepared := PreparePhotos(lib, limits, Parent(Logbook, id), user, uploads, ids, sha, cancelled);
      if prepared.Err? {
        return Some(prepared.error);
      }
      var news := prepared.value;
      var files := seq(|uploads|, i requires 0 <= i < |uploads| => if uploads[i].data.Ok? then uploads[i].data.value else []);
      failure := CreatePrepared(id, Slot(machine, date.value, shift), news, files, now, later, faults);
      assert IdsOf(news) == ids;
      assert IsPrepared(lib, limits, Parent(Logbook, id), user, sha, uploads, ids, news);
    }

    /** An upload has become a page of a logbook: its row describes its bytes, and the store
        holds them. */
    ghost predicate Stands(photos: map<Id, Photo>, objects: map<Key, Data>, book: Id, user: Id, sha: Data -> string,
                           upload: Upload, id: Id, page: int)
    {
      && Passes(lib, limits, upload)
      && var photo := Prepared(lib, Parent(Logbook, book), user, sha, upload.data.value, id);
      && id in photos && photos[id] == PhotoRow(Parent(Logbook, book), page, photo)
      && photo.key in objects && objects[photo.key] == upload.data.value
    }

    /** The parent is there, a message on its active machine, and the photo under it. */
    predicate IsThere(machine: int, parent: Parent, photo: Id)
      reads repo
    {
      && (if parent.kind.Logbook? then parent.id in repo.books
          else parent.id in repo.messages && repo.messages[parent.id].machine == machine && machine in repo.machines)
      && photo in repo.photos && repo.photos[photo].parent == parent
    }

    /** A photo that may be rotated by the user, whose row is the expected one and agrees
        with its file. */
    predicate Readable(user: Id, admin: bool, machine: int, parent: Parent, photo: Id, degrees: int, expected: string,
                       sha: Data -> string, opening: Fault)
      reads repo, store
    {
      && (degrees == 90 || degrees == 180 || degrees == -90)
      && IsThere(machine, parent, photo)
      && var row := repo.photos[photo];
      && (admin || row.uploader == user)
      && row.sha == expected && 0 < row.size <= limits.photoBytes
      && opening.Works? && row.key in store.objects
      && |store.objects[row.key]| == row.size && sha(store.objects[row.key]) == row.sha
    }

    /** The first reason against it. */
    function ReadError(user: Id, admin: bool, machine: int, parent: Parent, photo: Id, degrees: int, expected: string,
                       opening: Fault): Error
      reads repo, store
    {
      if degrees != 90 && degrees != 180 && degrees != -90 then Validation
      else if !IsThere(machine, parent, photo) then NotFound
      else
        var row := repo.photos[photo];
        if !admin && row.uploader != user then Forbidden
        else if row.sha != expected then Error.Conflict
        else if row.size <= 0 || row.size > limits.photoBytes then Validation
        else if !opening.Works? || row.key !in store.objects then StorageFailure
        else Validation
    }

    /** The photo that a rotation starts from: its row and the file, checked against
        each other. */
    method ReadOriginal(user: Id, admin: bool, machine: int, parent: Parent, photo: Id, degrees: int, expected: string,
                        sha: Data -> string, opening: Fault) returns (r: Result<(Photo, Data)>)
      ensures r.Ok? <==> Readable(user, admin, machine, parent, photo, degrees, expected, sha, opening)
      ensures r.Err? ==> r.error == ReadError(user, admin, machine, parent, photo, degrees, expected, opening)
      ensures r.Ok? ==> Legal(degrees) && Holds(repo.Snapshot(), store.objects, photo, r.value.0, r.value.1)
      ensures r.Ok? ==> r.value.0.parent == parent && r.value.0.sha == expected == sha(r.value.1)
    {
      if !Legal(degrees) {
        return Err(Validation);
      }
      if !ParentExists(repo.Snapshot(), parent, machine) || photo !in repo.photos || repo.photos[photo].parent != parent {
        return Err(NotFound);
      }
      var original := repo.photos[photo];
      if !admin && user != original.uploader {
        return Err(Forbidden);
      }
      if original.sha != expected {
        return Err(Error.Conflict);
      }
      if original.size <= 0 || original.size > limits.photoBytes {
        return Err(Validation);
      }
      var file := store.Open(original.key, opening);
      if file.None? {
        return Err(StorageFailure);
      }
      if |file.value| > limits.photoBytes || |file.value| != original.size || sha(file.value) != original.sha {
        return Err(Validation);
      }
      return Ok((original, file.value));
    }

    /** Reserves the new key, stores the new file, and swaps it in. */
    method SwapIn(user: Id, admin: bool, machine: int, photo: Id, original: Photo, updated: NewPhoto, file: Data,
                  degrees: int, now: int, later: int, putting: Fault) returns (failure: Option<Error>)
      modifies repo, store
      ensures failure.None? <==>
        putting.Works? && Swaps(old(repo.Snapshot()), user, admin, machine, photo, original, updated.key, degrees, now, later)
      ensures failure.Some? ==> RowsKept(old(repo.Snapshot()), repo.Snapshot())
      ensures store.objects - {updated.key} == old(store.objects) - {updated.key}
      ensures store.objects != old(store.objects) && failure.Some? ==> updated.key in repo.deletions
      ensures failure.None? ==> updated.key in store.objects && store.objects[updated.key] == file
      ensures failure.None? ==> updated.key !in old(repo.deletions)
      ensures failure.None? ==>
        Replaces(Reserved(old(repo.Snapshot()), updated.key, now), repo.Snapshot(), photo, original, updated, degrees, later)
    {
      ghost var before := repo.Snapshot();
      SwapCommits(before, user, admin, machine, photo, original, updated, degrees, now, later);
      var reserved := repo.ReserveUploads([updated.key], now + RESERVATION);
      if !reserved {
        return Some(Error.Conflict);
      }
      ReservedOne(before, updated.key, now);
      var stored := store.Put(updated.key, file, putting);
      if !stored {
        return Some(StorageFailure);
      }
      failure := repo.ReplaceRotatedPhoto(user, admin, machine, photo, original, updated, degrees, later);
      if failure.None? {
        RotationReplaces(Reserved(before, updated.key, now), user, admin, machine, photo, original, updated, degrees, later);
      }
    }

    /** Reads the photo, rotates its pixels, and swaps the result in, unless the photo
        has changed in the meantime. */
    method RotatePhoto(user: Id, admin: bool, machine: int, parent: Parent, photo: Id, degrees: int, expected: string,
                       sha: Data -> string, key: Key, now: int, later: int, opening: Fault, putting: Fault)
      returns (failure: Option<Error>)
      requires R.Coherent(lib)
      modifies repo, store
      ensures failure.None? <==>
        && old(Readable(user, admin, machine, parent, photo, degrees, expected, sha, opening))
        && (exists r :: R.IsRotation(lib, limits, old(store.objects[repo.photos[photo].key]), degrees, r))
        && putting.Works? && old(Free(repo.Snapshot(), photo, key)) && later < now + 86400
      ensures failure.Some? ==> RowsKept(old(repo.Snapshot()), repo.Snapshot())
      ensures store.objects - {key} == old(store.objects) - {key}
      ensures store.objects != old(store.objects) && failure.Some? ==> key in repo.deletions
      ensures failure.None? ==> exists original, file, r ::
        RotatedFrom(lib, limits, old(repo.Snapshot()), old(store.objects), photo, original, file, degrees, r)
        && original.parent == parent && original.sha == expected == sha(file)
        && key in store.objects && store.objects[key] == r.data
        && Replaces(Reserved(old(repo.Snapshot()), key, now), repo.Snapshot(), photo, original, Version(photo, key, r, sha, user), degrees, later)
    {
      var read := ReadOriginal(user, admin, machine, parent, photo, degrees, expected, sha, opening);
      if read.Err? {
        return Some(read.error);
      }
      var (original, data) := read.value;
      var rotated := R.RotateFile(lib, limits, data, degrees);
      if rotated.Err? {
        return Some(rotated.error);
      }
      var r := rotated.value;
      assert RotatedFrom(lib, limits, repo.Snapshot(), store.objects, photo, original, data, degrees, r);
      failure := SwapIn(user, admin, machine, photo, original, Version(photo, key, r, sha, user), r.data, degrees, now, later, putting);
    }

    /** One claimed key: the row goes only after the object did. */
    method RemoveOne(key: Key, erased: Fault, completed: Fault)
      modifies repo, store
      ensures store.objects == if erased.FailsFirst? then old(store.objects) else old(store.objects) - {key}
      ensures repo.Snapshot() == if erased.Works? && !completed.FailsFirst?
        then CompleteDeletion(old(repo.Snapshot()), key) else old(repo.Snapshot())
    {
      var deleted := store.Delete(key, erased);
      if deleted && !completed.FailsFirst? {
        repo.CompleteDeletion(key);
      }
    }

    /** The loop over the claimed keys, up to a cancellation. */
    method RemoveAll(keys: seq<Key>, erased: nat -> Fault, completed: nat -> Fault, cancelled: nat -> bool) returns (n: nat)
      requires Distinct(keys) && forall k <- keys :: k in repo.deletions && repo.deletions[k].claimed
      modifies repo, store
      ensures n <= |keys| && (n < |keys| ==> cancelled(n)) && forall i :: 0 <= i < n ==> !cancelled(i)
      ensures store.objects == old(store.objects) - Erased(keys, erased, n)
      ensures repo.Snapshot() == Without(old(repo.Snapshot()), Finished(keys, erased, completed, n))
    {
      n := 0;
      while n < |keys|
        invariant 0 <= n <= |keys|
        invariant forall i :: 0 <= i < n ==> !cancelled(i)
        invariant store.objects == old(store.objects) - Erased(keys, erased, n)
        invariant repo.Snapshot() == Without(old(repo.Snapshot()), Finished(keys, erased, completed, n))
      {
        if cancelled(n) {
          return;
        }
        RemoveOne(keys[n], erased(n), completed(n));
        RemovalNext(old(repo.Snapshot()), old(store.objects), keys, erased, completed, n);
        n := n + 1;
      }
    }

    /** Claims one batch, deletes each object, and only then its row; a failed delete
        keeps the row for another try. */
    method Cleanup(now: int, locked: set<Key>, erased: nat -> Fault, completed: nat -> Fault, cancelled: nat -> bool)
      returns (keys: seq<Key>, n: nat)
      modifies repo, store
      ensures n <= |keys| && (n < |keys| ==> cancelled(n)) && forall i :: 0 <= i < n ==> !cancelled(i)
      ensures |keys| <= 100 && forall k <- keys :: k in old(repo.deletions) && old(repo.deletions)[k].notBefore <= now && k !in locked
      ensures |keys| < 100 ==>
        forall k :: k in old(repo.deletions) && old(repo.deletions)[k].notBefore <= now && k !in locked ==> k in keys
      ensures forall k :: k in repo.deletions <==>
        (k in old(repo.deletions) && forall i :: 0 <= i < n && keys[i] == k ==> !erased(i).Works? || completed(i).FailsFirst?)
      ensures forall k :: k in repo.deletions ==>
        repo.deletions[k] == Row(old(repo.deletions)[k].notBefore, old(repo.deletions)[k].claimed || k in keys)
      ensures forall k :: k in store.objects <==>
        (k in old(store.objects) && forall i :: 0 <= i < n && keys[i] == k ==> erased(i).FailsFirst?)
      ensures forall k :: k in store.objects ==> store.objects[k] == old(store.objects)[k]
      ensures |keys| == if |old(repo.DueRows(now, locked))| < BATCH then |old(repo.DueRows(now, locked))| else BATCH
      ensures Distinct(keys) && SetOf(keys) <= old(repo.DueRows(now, locked))
      ensures store.objects == old(store.objects) - Erased(keys, erased, n)
      ensures repo.Snapshot() == Without(Claim(old(repo.Snapshot()), SetOf(keys)), Finished(keys, erased, completed, n))
    {
      keys := repo.PendingDeletions(BATCH, now, locked);
      ClaimedRows(old(repo.Snapshot()), keys);
      n := RemoveAll(keys, erased, completed, cancelled);
      CleanupRows(old(repo.Snapshot()), old(store.objects), keys, erased, completed, n);
    }
  }

  /** What a cleanup leaves, row by row and object by object. */
  lemma CleanupRows(db: Db, objects: map<Key, Data>, keys: seq<Key>, erased: nat -> Fault, completed: nat -> Fault, n: nat)
    requires n <= |keys| && SetOf(keys) <= db.deletions.Keys
    ensures var after := Without(Claim(db, SetOf(keys)), Finished(keys, erased, completed, n)).deletions;
      && (forall k :: k in after <==>
        (k in db.deletions && forall i :: 0 <= i < n && keys[i] == k ==> !erased(i).Works? || completed(i).FailsFirst?))
      && (forall k :: k in after ==> after[k] == Row(db.deletions[k].notBefore, db.deletions[k].claimed || k in keys))
    ensures var left := objects - Erased(keys, erased, n);
      && (forall k :: k in left <==> k in objects && forall i :: 0 <= i < n && keys[i] == k ==> erased(i).FailsFirst?)
      && (forall k :: k in left ==> left[k] == objects[k])
  {
  }

  /** The uploads pass every check, and these are their photos. */
  ghost predicate IsPrepared(lib: R.Library<int>, limits: R.Limits, parent: Parent, user: Id, sha: Data -> string,
                             uploads: seq<Upload>, ids: seq<Id>, news: seq<NewPhoto>) {
    && |news| == |uploads| == |ids|
    && forall i :: 0 <= i < |uploads| ==>
      Passes(lib, limits, uploads[i]) && news[i] == Prepared(lib, parent, user, sha, uploads[i].data.value, ids[i])
  }

  /** A creation in two transactions, the reservation at one time and the commit at a later
      one, that nothing else comes between: its keys are new to the queue, it takes less
      than a day, its references are active, the id and the slot are free, and there is
      room for its rows. */
  predicate Creates(db: Db, id: Id, slot: Slot, news: seq<NewPhoto>, now: int, later: int) {
    && slot.machine in db.machines && slot.shift in db.shifts
    && id !in db.books && (forall b :: b in db.books ==> db.books[b] != slot)
    && (forall i :: 0 <= i < |news| ==> news[i].key !in db.deletions)
    && (news != [] ==> later < now + 86400)
    && Room(db.photos, Parent(Logbook, id), news, 0)
  }

  lemma ReservedRows(db: Db, news: seq<NewPhoto>, now: int)
    requires Reservation(db, news, now).Ok?
    ensures var r := Reservation(db, news, now).value;
      && r == db.(deletions := r.deletions)
      && forall i :: 0 <= i < |news| ==>
        news[i].key !in db.deletions && news[i].key in r.deletions && r.deletions[news[i].key] == Row(now + 86400, false)
  {
    ReservationRows(db, KeysOf(news), now + RESERVATION);
    assert forall i :: 0 <= i < |news| ==> KeysOf(news)[i] in KeysOf(news);
  }

  lemma ReservedCreates(db: Db, id: Id, slot: Slot, news: seq<NewPhoto>, now: int, later: int)
    requires Reservation(db, news, now).Ok?
    ensures Database.Create(Reservation(db, news, now).value, id, slot, news, later).Ok? <==> Creates(db, id, slot, news, now, later)
  {
    var r := Reservation(db, news, now).value;
    ReservedRows(db, news, now);
    CreateIff(r, id, slot, news, later);
    assert news != [] ==> r.deletions[news[0].key].notBefore == now + 86400;
  }

  lemma CreatesReserves(db: Db, id: Id, slot: Slot, news: seq<NewPhoto>, now: int, later: int)
    requires Creates(db, id, slot, news, now, later)
    ensures Reservation(db, news, now).Ok?
  {
    ReservationRows(db, KeysOf(news), now + RESERVATION);
  }

  /** The row of a photo and the file stored under its key. */
  predicate Holds(db: Db, objects: map<Key, Data>, photo: Id, original: Photo, file: Data) {
    && photo in db.photos && db.photos[photo] == original
    && original.key in objects && objects[original.key] == file
  }

  ghost predicate RotatedFrom(lib: R.Library<int>, limits: R.Limits, db: Db, objects: map<Key, Data>, photo: Id,
                              original: Photo, file: Data, degrees: int, r: R.Encoded) {
    Holds(db, objects, photo, original, file) && R.IsRotation(lib, limits, file, degrees, r)
  }

  /** The new file of a photo. */
  function Version(photo: Id, key: Key, r: R.Encoded, sha: Data -> string, user: Id): NewPhoto {
    NewPhoto(photo, key, r.contentType, |r.data|, sha(r.data), user)
  }

  function Reservation(db: Db, news: seq<NewPhoto>, now: int): Result<Db> {
    Database.ReserveUploads(db, KeysOf(news), now + RESERVATION)
  }

  function Reserved(db: Db, key: Key, now: int): Db {
    db.(deletions := db.deletions[key := Row(now + RESERVATION, false)])
  }

  /** A rotation in two transactions that nothing else comes between: the new key is new to
      the queue and no row has it, the old one is not queued, it takes less than a day, and
      the photo is still there as it was read, under its parent, for a user who may. */
  predicate Swaps(db: Db, user: Id, admin: bool, machine: int, photo: Id, original: Photo, key: Key,
                  degrees: int, now: int, later: int) {
    && key !in db.deletions && later < now + 86400
    && (degrees == 90 || degrees == 180 || degrees == -90)
    && (original.parent.kind.Logbook? ==> original.parent.id in db.books)
    && (original.parent.kind.Message? ==>
          && original.parent.id in db.messages && db.messages[original.parent.id].machine == machine && machine in db.machines)
    && photo in db.photos && db.photos[photo].parent == original.parent
    && (admin || db.photos[photo].uploader == user)
    && db.photos[photo].sha == original.sha && db.photos[photo].key == original.key
    && original.key !in db.deletions
    && forall q :: q in db.photos && q != photo && db.photos[q].parent.kind == original.parent.kind ==> db.photos[q].key != key
  }

  /** The key is new to the queue and to the other rows of its table, and the old one is not
      queued. */
  predicate Free(db: Db, photo: Id, key: Key)
    requires photo in db.photos
  {
    && key !in db.deletions && db.photos[photo].key !in db.deletions
    && forall q :: q in db.photos && q != photo && db.photos[q].parent.kind == db.photos[photo].parent.kind ==> db.photos[q].key != key
  }

  lemma SwapCommits(db: Db, user: Id, admin: bool, machine: int, photo: Id, original: Photo, updated: NewPhoto,
                    degrees: int, now: int, later: int)
    ensures Database.ReserveUploads(db, [updated.key], now + RESERVATION).Ok? <==> updated.key !in db.deletions
    ensures updated.key !in db.deletions ==>
      (ReplaceRotatedPhoto(Reserved(db, updated.key, now), user, admin, machine, photo, original, updated, degrees, later).Ok? <==>
        Swaps(db, user, admin, machine, photo, original, updated.key, degrees, now, later))
  {
    ReservationRows(db, [updated.key], now + RESERVATION);
    assert updated.key in [updated.key];
    if updated.key !in db.deletions {
      RotationCommits(Reserved(db, updated.key, now), user, admin, machine, photo, original, updated, degrees, later);
    }
  }

  /** Nothing but new reservations. */
  predicate RowsKept(before: Db, after: Db) {
    && after == before.(deletions := after.deletions)
    && forall k :: k in before.deletions ==> k in after.deletions && after.deletions[k] == before.deletions[k]
  }

  function Without(db: Db, keys: set<Key>): Db {
    db.(deletions := db.deletions - keys)
  }

  /** The effect of one more key. */
  lemma RemovalNext(claimed: Db, objects: map<Key, Data>, keys: seq<Key>, erased: nat -> Fault, completed: nat -> Fault, n: nat)
    requires n < |keys| && Distinct(keys)
    requires forall k <- keys :: k in claimed.deletions && claimed.deletions[k].claimed
    ensures var before := Without(claimed, Finished(keys, erased, completed, n));
      Without(claimed, Finished(keys, erased, completed, n + 1))
      == if erased(n).Works? && !completed(n).FailsFirst? then CompleteDeletion(before, keys[n]) else before
    ensures var before := objects - Erased(keys, erased, n);
      objects - Erased(keys, erased, n + 1) == if erased(n).FailsFirst? then before else before - {keys[n]}
  {
    FinishedNext(keys, erased, completed, n);
    FinishedAmong(keys, erased, completed, n);
    CompleteNext(claimed, Finished(keys, erased, completed, n), keys, n);
    assert objects - Erased(keys, erased, n) - {keys[n]} == objects - (Erased(keys, erased, n) + {keys[n]});
  }

  lemma ClaimedRows(db: Db, keys: seq<Key>)
    requires SetOf(keys) <= db.deletions.Keys
    ensures var claimed := Claim(db, SetOf(keys));
      forall k <- keys :: k in claimed.deletions && claimed.deletions[k].claimed
  {
    forall k <- keys ensures k in db.deletions {
      assert k in SetOf(keys);
    }
  }

  lemma FinishedAmong(keys: seq<Key>, erased: nat -> Fault, completed: nat -> Fault, n: nat)
    requires n <= |keys|
    ensures Finished(keys, erased, completed, n) <= SetOf(keys[..n])
  {
    forall i | 0 <= i < n ensures keys[i] in keys[..n] {
      assert keys[..n][i] == keys[i];
    }
  }

  lemma CompleteNext(claimed: Db, finished: set<Key>, keys: seq<Key>, n: nat)
    requires n < |keys| && Distinct(keys) && finished <= SetOf(keys[..n])
    requires forall k <- keys :: k in claimed.deletions && claimed.deletions[k].claimed
    ensures CompleteDeletion(Without(claimed, finished), keys[n]) == Without(claimed, finished + {keys[n]})
  {
    assert keys[n] !in keys[..n];
    assert claimed.deletions - finished - {keys[n]} == claimed.deletions - (finished + {keys[n]});
  }

  lemma ReservedKeys(db: Db, news: seq<NewPhoto>, now: int)
    requires Reservation(db, news, now).Ok?
    ensures Distinct(KeysOf(news))
    ensures forall k <- KeysOf(news) :: k in Reservation(db, news, now).value.deletions
  {
  }

  lemma ReservedOne(db: Db, key: Key, now: int)
    requires Database.ReserveUploads(db, [key], now + RESERVATION).Ok?
    ensures key !in db.deletions
    ensures Database.ReserveUploads(db, [key], now + RESERVATION).value == Reserved(db, key, now)
  {
    assert key in [key];
  }

  lemma LandedKeys(news: seq<NewPhoto>, n: nat)
    requires n <= |news|
    ensures forall k <- KeysOf(news[..n]) :: k in KeysOf(news)
  {
    forall k <- KeysOf(news[..n]) ensures k in KeysOf(news) {
      var i :| 0 <= i < n && KeysOf(news[..n])[i] == k;
      assert KeysOf(news)[i] == k;
    }
  }

  lemma CreatedBook(db: Db, id: Id, slot: Slot, news: seq<NewPhoto>, now: int)
    requires Database.Create(db, id, slot, news, now).Ok?
    ensures var r := Database.Create(db, id, slot, news, now).value; id in r.books && r.books[id] == slot
  {
    InsertPhotosAttaches(db.(books := db.books[id := slot]), Parent(Logbook, id), news, 0, now);
  }

  lemma FinishedNext(keys: seq<Key>, erased: nat -> Fault, completed: nat -> Fault, n: nat)
    requires n < |keys|
    ensures Erased(keys, erased, n + 1) == Erased(keys, erased, n) + if erased(n).FailsFirst? then {} else {keys[n]}
    ensures Finished(keys, erased, completed, n + 1) == Finished(keys, erased, completed, n)
      + if erased(n).Works? && !completed(n).FailsFirst? then {keys[n]} else {}
  {
  }

  function DueAmong(db: Db, now: int, locked: set<Key>): set<Key> {
    set k | k in db.deletions && Due(db, k, now) && k !in locked
  }

  /** A row goes only after its object. When every call works, a whole batch goes, so a
      queue of due rows shrinks by the size of the batch until it is empty. */
  lemma CleanupDrains(db: Db, keys: seq<Key>, erased: nat -> Fault, completed: nat -> Fault, now: int, locked: set<Key>)
    requires Distinct(keys) && SetOf(keys) <= DueAmong(db, now, locked)
    ensures Finished(keys, erased, completed, |keys|) <= Erased(keys, erased, |keys|)
    ensures (forall i :: 0 <= i < |keys| ==> erased(i).Works? && completed(i).Works?) ==>
      var after := Without(Claim(db, SetOf(keys)), Finished(keys, erased, completed, |keys|));
      && Erased(keys, erased, |keys|) == SetOf(keys)
      && DueAmong(after, now, locked) == DueAmong(db, now, locked) - SetOf(keys)
      && |DueAmong(after, now, locked)| == |DueAmong(db, now, locked)| - |keys|
  {
    if forall i :: 0 <= i < |keys| ==> erased(i).Works? && completed(i).Works? {
      AllFinished(keys, erased, completed);
      BatchGone(db, keys, now, locked);
    }
  }

  lemma AllFinished(keys: seq<Key>, erased: nat -> Fault, completed: nat -> Fault)
    requires forall i :: 0 <= i < |keys| ==> erased(i).Works? && completed(i).Works?
    ensures Finished(keys, erased, completed, |keys|) == SetOf(keys) == Erased(keys, erased, |keys|)
  {
    forall k <- keys ensures k in Finished(keys, erased, completed, |keys|) && k in Erased(keys, erased, |keys|) {
      var i :| 0 <= i < |keys| && keys[i] == k;
      assert erased(i).Works? && completed(i).Works?;
    }
  }

  lemma BatchGone(db: Db, keys: seq<Key>, now: int, locked: set<Key>)
    requires Distinct(keys) && SetOf(keys) <= DueAmong(db, now, locked)
    ensures var after := Without(Claim(db, SetOf(keys)), SetOf(keys));
      && DueAmong(after, now, locked) == DueAmong(db, now, locked) - SetOf(keys)
      && |DueAmong(after, now, locked)| == |DueAmong(db, now, locked)| - |keys|
  {
    SizeOfSet(keys);
    var before := DueAmong(db, now, locked);
    assert before == (before - SetOf(keys)) + SetOf(keys);
  }
}
