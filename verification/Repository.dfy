/** The repository over its connection, statement by statement. */
module Repositories {
  import opened Common
  import opened Database
  import opened Sets
  import opened Strings

  function WithRows(rows: map<Key, Row>, keys: seq<Key>, row: Row): map<Key, Row> {
    rows + map k | k in keys :: row
  }

  lemma ReservedNext(rows: map<Key, Row>, keys: seq<Key>, i: nat, row: Row)
    requires i < |keys|
    ensures WithRows(rows, keys[..i + 1], row) == WithRows(rows, keys[..i], row)[keys[i] := row]
  {
    assert keys[..i + 1] == keys[..i] + [keys[i]];
  }

  /** No key is taken, from before or by the batch itself. */
  predicate Addable(rows: map<Key, Row>, keys: seq<Key>) {
    Distinct(keys) && forall i :: 0 <= i < |keys| ==> keys[i] !in rows
  }

  lemma ReserveIff(db: Db, keys: seq<Key>, expires: int)
    ensures Database.ReserveUploads(db, keys, expires)
         == if Addable(db.deletions, keys) then Ok(db.(deletions := WithRows(db.deletions, keys, Row(expires, false)))) else Err(Error.Conflict)
  {
    if exists i :: 0 <= i < |keys| && keys[i] in db.deletions {
      var i :| 0 <= i < |keys| && keys[i] in db.deletions;
      assert keys[i] in keys;
    }
  }

  lemma AddableNext(rows: map<Key, Row>, keys: seq<Key>, i: nat, row: Row)
    requires i < |keys| && Addable(rows, keys[..i])
    ensures keys[i] in WithRows(rows, keys[..i], row) ==> !Addable(rows, keys)
    ensures keys[i] !in WithRows(rows, keys[..i], row) ==> Addable(rows, keys[..i + 1])
  {
    assert keys[..i + 1] == keys[..i] + [keys[i]];
    if keys[i] in keys[..i] {
      var j :| 0 <= j < i && keys[..i][j] == keys[i];
      assert keys[j] == keys[i];
    }
  }

  /** One multi-row insert, row by row: all the rows or none. */
  method AddRows(rows: map<Key, Row>, keys: seq<Key>, row: Row) returns (r: Option<map<Key, Row>>)
    ensures r == if Addable(rows, keys) then Some(WithRows(rows, keys, row)) else None
  {
    var added := rows;
    for i := 0 to |keys|
      invariant Addable(rows, keys[..i])
      invariant added == WithRows(rows, keys[..i], row)
    {
      AddableNext(rows, keys, i, row);
      if keys[i] in added {
        return None;
      }
      ReservedNext(rows, keys, i, row);
      added := added[keys[i] := row];
    }
    assert keys[..|keys|] == keys;
    return Some(added);
  }

  /** The repository over its connection: each public method is one transaction. */
  class Repository {
    var deletions: map<Key, Row>
    var books: map<Id, Slot>
    var messages: map<Id, MessageRow>
    var photos: map<Id, Photo>
    var markers: map<Id, Marker>
    var machines: set<int>
    var shifts: set<int>

    function Snapshot(): Db
      reads this
    {
      Db(deletions, books, messages, photos, markers, machines, shifts)
    }

    /** Rolls a transaction back to the state in which it began. */
    method Rollback(begun: Db)
      modifies this
      ensures Snapshot() == begun
    {
      deletions, books, messages, photos := begun.deletions, begun.books, begun.messages, begun.photos;
      markers, machines, shifts := begun.markers, begun.machines, begun.shifts;
    }

    /** What a transaction leaves behind. */
    static function Outcome(begun: Db, result: Result<Db>): Db {
      if result.Ok? then result.value else begun
    }

    static function FailureOf(result: Result<Db>): Option<Error> {
      if result.Ok? then None else Some(result.error)
    }

    method ReserveUploads(keys: seq<Key>, expires: int) returns (ok: bool)
      modifies this
      ensures ok == Database.ReserveUploads(old(Snapshot()), keys, expires).Ok?
      ensures Snapshot() == Outcome(old(Snapshot()), Database.ReserveUploads(old(Snapshot()), keys, expires))
    {
      ReserveIff(Snapshot(), keys, expires);
      var rows := AddRows(deletions, keys, Row(expires, false));
      if rows.None? {
        return false;
      }
      deletions := rows.value;
      return true;
    }

    /** Deletes the reservations of `keys`; false if any was missing. */
    method PromoteKeys(keys: seq<Key>, now: int) returns (ok: bool)
      modifies this`deletions
      ensures ok == Promote(old(Snapshot()), keys, now).Ok?
      ensures ok ==> Snapshot() == Promote(old(Snapshot()), keys, now).value
    {
      var hit := set k | k in keys && Promotable(Snapshot(), k, now);
      deletions := deletions - hit;
      ok := |hit| == |keys|;
    }

    method InsertPhotos(parent: Parent, news: seq<NewPhoto>, offset: int, now: int) returns (failure: Option<Error>)
      modifies this`deletions, this`photos
      ensures match Database.InsertPhotos(old(Snapshot()), parent, news, offset, now)
        case Ok(db) => failure == None && Snapshot() == db
        case Err(e) => failure == Some(e)
    {
      var promoted := PromoteKeys(KeysOf(news), now);
      if !promoted {
        return Some(UploadExpired);
      }
      ghost var before, begun := photos, Snapshot();
      assert news[..0] == [];
      for i := 0 to |news|
        invariant InsertRows(before, parent, news[..i], offset) == Result.Ok(photos)
        invariant Snapshot() == begun.(photos := photos)
      {
        var row := PhotoRow(parent, offset + i + 1, news[i]);
        assert news[..i + 1][..i] == news[..i];
        if news[i].id in photos || exists q :: q in photos && Collides(photos[q], row) {
          InsertRowsPrefix(before, parent, news, offset, i + 1);
          return Some(Error.Conflict);
        }
        photos := photos[news[i].id := row];
      }
      assert news[..|news|] == news;
      return None;
    }

    method Create(id: Id, slot: Slot, news: seq<NewPhoto>, now: int) returns (failure: Option<Error>)
      modifies this
      ensures Snapshot() == Outcome(old(Snapshot()), Database.Create(old(Snapshot()), id, slot, news, now))
      ensures failure == FailureOf(Database.Create(old(Snapshot()), id, slot, news, now))
    {
      var begun := Snapshot();
      if slot.machine !in machines || slot.shift !in shifts {
        return Some(InvalidReference);
      }
      if id in books || slot in books.Values {
        return Some(Error.Conflict);
      }
      books := books[id := slot];
      failure := InsertPhotos(Parent(Logbook, id), news, 0, now);
      if failure.Some? {
        Rollback(begun);
      }
    }

    method AppendPhotos(id: Id, news: seq<NewPhoto>, maxPhotos: int, now: int) returns (failure: Option<Error>)
      modifies this
      ensures Snapshot() == Outcome(old(Snapshot()), Database.AppendPhotos(old(Snapshot()), id, news, maxPhotos, now))
      ensures failure == FailureOf(Database.AppendPhotos(old(Snapshot()), id, news, maxPhotos, now))
    {
      var begun := Snapshot();
      if id !in books {
        return Some(NotFound);
      }
      var count := |PhotosOf(begun, Parent(Logbook, id))|;
      if count + |news| > maxPhotos {
        return Some(TooManyPhotos);
      }
      failure := InsertPhotos(Parent(Logbook, id), news, count, now);
      if failure.Some? {
        Rollback(begun);
      }
    }

    method CreateMessage(id: Id, row: MessageRow, news: seq<NewPhoto>, now: int) returns (failure: Option<Error>)
      modifies this
      ensures Snapshot() == Outcome(old(Snapshot()), Database.CreateMessage(old(Snapshot()), id, row, news, now))
      ensures failure == FailureOf(Database.CreateMessage(old(Snapshot()), id, row, news, now))
    {
      var begun := Snapshot();
      if row.machine !in machines {
        return Some(InvalidReference);
      }
      if id in messages {
        return Some(Error.Conflict);
      }
      messages := messages[id := row];
      failure := None;
      if |news| > 0 {
        failure := InsertPhotos(Parent(Message, id), news, 0, now);
      }
      if failure.Some? {
        Rollback(begun);
      }
    }

    /** Queues the keys under a parent, then deletes its photos. */
    method DetachPhotos(parent: Parent, now: int) returns (failure: Option<Error>)
      modifies this`deletions, this`photos
      ensures match Detach(old(Snapshot()), parent, now)
        case Ok(db) => failure == None && Snapshot() == db
        case Err(e) => failure == Some(e) && Snapshot() == old(Snapshot())
    {
      var keys := KeysUnder(Snapshot(), parent);
      if !(keys !! deletions.Keys) {
        return Some(Error.Conflict);
      }
      deletions := deletions + map k | k in keys :: Row(now, false);
      photos := map p | p in photos && photos[p].parent != parent :: photos[p];
      return None;
    }

    method Delete(id: Id, now: int) returns (failure: Option<Error>)
      modifies this
      ensures Snapshot() == Outcome(old(Snapshot()), Database.Delete(old(Snapshot()), id, now))
      ensures failure == FailureOf(Database.Delete(old(Snapshot()), id, now))
    {
      if id !in books {
        return Some(NotFound);
      }
      failure := DetachPhotos(Parent(Logbook, id), now);
      if failure.None? {
        books := books - {id};
      }
    }

    method DeleteMessage(machine: int, id: Id, user: Id, now: int) returns (failure: Option<Error>)
      modifies this
      ensures Snapshot() == Outcome(old(Snapshot()), Database.DeleteMessage(old(Snapshot()), machine, id, user, now))
      ensures failure == FailureOf(Database.DeleteMessage(old(Snapshot()), machine, id, user, now))
    {
      if id !in messages || messages[id].machine != machine || machine !in machines {
        return Some(NotFound);
      }
      if messages[id].author != user {
        return Some(Forbidden);
      }
      failure := DetachPhotos(Parent(Message, id), now);
      if failure.None? {
        messages := messages - {id};
      }
    }

    method EditMessage(machine: int, id: Id, user: Id, text: string, now: int) returns (failure: Option<Error>)
      modifies this
      ensures Snapshot() == Outcome(old(Snapshot()), Database.EditMessage(old(Snapshot()), machine, id, user, text, now))
      ensures failure == FailureOf(Database.EditMessage(old(Snapshot()), machine, id, user, text, now))
    {
      if id !in messages || messages[id].machine != machine || machine !in machines {
        return Some(NotFound);
      }
      var message := messages[id];
      if message.author != user {
        return Some(Forbidden);
      }
      if Blank(text) && PhotosOf(Snapshot(), Parent(Message, id)) == {} {
        return Some(Validation);
      }
      if text != message.text {
        messages := messages[id := message.(text := text, edited := Some(now))];
      }
      return None;
    }

    /** The checks of a rotation, in the order of the source. */
    method CheckRotation(user: Id, admin: bool, machine: int, photo: Id, original: Photo, degrees: int)
      returns (refusal: Option<Error>)
      ensures refusal == RotationRefusal(Snapshot(), user, admin, machine, photo, original, degrees)
    {
      if degrees != 90 && degrees != -90 && degrees != 180 {
        return Some(Validation);
      }
      if !ParentExists(Snapshot(), original.parent, machine) {
        return Some(NotFound);
      }
      if photo !in photos || photos[photo].parent != original.parent {
        return Some(NotFound);
      }
      var current := photos[photo];
      if !admin && current.uploader != user {
        return Some(Forbidden);
      }
      if current.sha != original.sha || current.key != original.key {
        return Some(Error.Conflict);
      }
      return None;
    }

    method ReplaceRotatedPhoto(user: Id, admin: bool, machine: int, photo: Id, original: Photo, updated: NewPhoto,
                               degrees: int, now: int) returns (failure: Option<Error>)
      modifies this
      ensures Snapshot() == Outcome(old(Snapshot()),
        Database.ReplaceRotatedPhoto(old(Snapshot()), user, admin, machine, photo, original, updated, degrees, now))
      ensures failure == FailureOf(Database.ReplaceRotatedPhoto(old(Snapshot()), user, admin, machine, photo, original, updated, degrees, now))
    {
      var begun := Snapshot();
      failure := CheckRotation(user, admin, machine, photo, original, degrees);
      if failure.Some? {
        return;
      }
      var promoted := PromoteKeys([updated.key], now);
      if !promoted {
        Rollback(begun);
        return Some(UploadExpired);
      }
      if KeyTaken(begun, photo, updated.key) {
        Rollback(begun);
        return Some(Error.Conflict);
      }
      photos := photos[photo := RotatedRow(photos[photo], updated)];
      markers := map m | m in markers :: MovedMarker(markers[m], photo, degrees);
      if original.key in deletions {
        Rollback(begun);
        return Some(Error.Conflict);
      }
      deletions := deletions[original.key := Row(now, false)];
    }

    /** The rows that a claim may take: due, and not locked by another transaction. */
    function DueRows(now: int, locked: set<Key>): set<Key>
      reads this
    {
      set k | k in deletions && Due(Snapshot(), k, now) && k !in locked
    }

    /** The first of `rest` in the order of the claim. */
    method Soonest(rest: set<Key>) returns (first: Key)
      requires rest != {} && rest <= deletions.Keys
      ensures first in rest
      ensures forall k <- rest :: k != first ==> Sooner(Snapshot(), first, k)
    {
      first :| first in rest;
      var seen := {first};
      while seen != rest
        invariant seen <= rest && first in seen
        invariant forall k <- seen :: k != first ==> Sooner(Snapshot(), first, k)
        decreases |rest - seen|
      {
        var k :| k in rest - seen;
        StringOrder(first, k, k);
        if Sooner(Snapshot(), k, first) {
          forall j <- seen ensures Sooner(Snapshot(), k, j) {
            StringOrder(k, first, j);
          }
          first := k;
        }
        assert rest - (seen + {k}) < rest - seen;
        seen := seen + {k};
      }
    }

    method MarkClaimed(keys: set<Key>)
      modifies this`deletions
      ensures Snapshot() == Claim(old(Snapshot()), keys)
    {
      deletions := map k | k in deletions :: if k in keys then deletions[k].(claimed := true) else deletions[k];
    }

    /** The first rows among `due` in the order of the claim, up to a limit. */
    method TakeSoonest(due: set<Key>, limit: nat) returns (keys: seq<Key>)
      requires due <= deletions.Keys
      ensures Distinct(keys) && SetOf(keys) <= due
      ensures |keys| == if |due| < limit then |due| else limit
      ensures forall k, d :: k in keys && d in due && d !in keys ==> Sooner(Snapshot(), k, d)
      ensures |keys| < limit ==> SetOf(keys) == due
    {
      var rest := due;
      keys := [];
      while |keys| < limit && rest != {}
        invariant rest == due - SetOf(keys) && SetOf(keys) <= due
        invariant Distinct(keys) && |keys| <= limit
        invariant forall k, d :: k in keys && d in rest ==> Sooner(Snapshot(), k, d)
        decreases |rest|
      {
        var first := Soonest(rest);
        DistinctAppend(keys, first);
        keys := keys + [first];
        rest := rest - {first};
      }
      SizeOfSet(keys);
      SubsetOfSameSize(SetOf(keys), due);
      assert rest == {} ==> SetOf(keys) == due;
    }

    /** Claims up to `limit` due rows, soonest first: every key returned has a row whose time
        has come and that nobody has locked; whoever is left behind comes later, and nobody
        is left behind unless the limit is reached. */
    method PendingDeletions(limit: nat, now: int, locked: set<Key>) returns (keys: seq<Key>)
      modifies this`deletions
      ensures forall k <- keys :: k in old(deletions) && old(deletions)[k].notBefore <= now && k !in locked
      ensures |keys| <= limit
      ensures |keys| < limit ==> forall k :: k in old(deletions) && old(deletions)[k].notBefore <= now && k !in locked ==> k in keys
      ensures forall k, d :: k in keys && d in old(deletions) && old(deletions)[d].notBefore <= now && d !in locked && d !in keys ==>
        || old(deletions)[k].notBefore < old(deletions)[d].notBefore
        || (old(deletions)[k].notBefore == old(deletions)[d].notBefore && StringLess(k, d))
      ensures Snapshot() == Claim(old(Snapshot()), SetOf(keys))
      ensures Distinct(keys) && SetOf(keys) <= old(DueRows(now, locked))
      ensures |keys| == if |old(DueRows(now, locked))| < limit then |old(DueRows(now, locked))| else limit
      ensures forall k, d :: k in keys && d in old(DueRows(now, locked)) && d !in keys ==> Sooner(old(Snapshot()), k, d)
    {
      var due := DueRows(now, locked);
      keys := TakeSoonest(due, limit);
      DueFields(Snapshot(), now, locked, due, keys);
      MarkClaimed(SetOf(keys));
    }

    method CompleteDeletion(key: Key)
      modifies this
      ensures Snapshot() == Database.CompleteDeletion(old(Snapshot()), key)
    {
      if key in deletions && deletions[key].claimed {
        deletions := deletions - {key};
      }
    }
  }

  /** The rows that are due, and those that are claimed before others. */
  lemma DueFields(db: Db, now: int, locked: set<Key>, due: set<Key>, keys: seq<Key>)
    requires due == set k | k in db.deletions && Due(db, k, now) && k !in locked
    requires SetOf(keys) <= due && forall k, d :: k in keys && d in due && d !in keys ==> Sooner(db, k, d)
    ensures forall k :: k in due <==> k in db.deletions && db.deletions[k].notBefore <= now && k !in locked
    ensures forall k <- keys :: k in due
    ensures forall k, d :: k in keys && d in due && d !in keys ==>
      || db.deletions[k].notBefore < db.deletions[d].notBefore
      || (db.deletions[k].notBefore == db.deletions[d].notBefore && StringLess(k, d))
  {
    forall k <- keys ensures k in due {
      assert k in SetOf(keys);
    }
  }
}
