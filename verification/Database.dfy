/** The tables that decide which stored object belongs to whom, and the transactions
    over them. A transaction that fails leaves the tables as they were. */
module Database {
  import opened Common
  import opened Turns
  import opened Markers
  import opened Sets
  import opened Strings

  type Id = string
  type Key = string

  datatype Kind = Logbook | Message

  datatype Parent = Parent(kind: Kind, id: Id)

  /** The natural key of a logbook: machine, date and shift. */
  datatype Slot = Slot(machine: int, date: int, shift: int)

  datatype MessageRow = MessageRow(machine: int, author: Id, text: string, edited: Option<int>)

  /** A row of object_deletions: a reservation, or an object waiting for removal. */
  datatype Row = Row(notBefore: int, claimed: bool)

  datatype Photo = Photo(parent: Parent, page: int, key: Key, contentType: string, size: int, sha: string, uploader: Id)

  /** A photo that has been prepared for insertion. */
  datatype NewPhoto = NewPhoto(id: Id, key: Key, contentType: string, size: int, sha: string, uploader: Id)

  datatype Marker = Marker(photo: Id, at: Point)

  datatype Db = Db(
    deletions: map<Key, Row>,
    books: map<Id, Slot>,
    messages: map<Id, MessageRow>,
    photos: map<Id, Photo>,
    markers: map<Id, Marker>,
    machines: set<int>,
    shifts: set<int>)

  // ----- reserving and promoting

  /** One multi-row insert: a key that is already there fails the whole statement. */
  function ReserveUploads(db: Db, keys: seq<Key>, expires: int): Result<Db> {
    if (exists k <- keys :: k in db.deletions) || (exists i, j :: 0 <= i < j < |keys| && keys[i] == keys[j])
    then Err(Conflict)
    else Ok(db.(deletions := db.deletions + map k | k in keys :: Row(expires, false)))
  }

  predicate Promotable(db: Db, key: Key, now: int) {
    key in db.deletions && !db.deletions[key].claimed && db.deletions[key].notBefore > now
  }

  /** Deletes the reservations; the count of deleted rows must match. */
  function Promote(db: Db, keys: seq<Key>, now: int): Result<Db> {
    var hit := set k | k in keys && Promotable(db, k, now);
    if |hit| != |keys| then Err(UploadExpired) else Ok(db.(deletions := db.deletions - hit))
  }

  function KeysOf(news: seq<NewPhoto>): (r: seq<Key>)
    ensures |r| == |news| && forall i :: 0 <= i < |r| ==> r[i] == news[i].key
  {
    seq(|news|, i requires 0 <= i < |news| => news[i].key)
  }

  function PhotoRow(parent: Parent, page: int, p: NewPhoto): Photo {
    Photo(parent, page, p.key, p.contentType, p.size, p.sha, p.uploader)
  }

  /** An insert under the primary key and the two unique constraints. */
  function InsertOne(photos: map<Id, Photo>, id: Id, photo: Photo): Result<map<Id, Photo>> {
    if id in photos || (exists q :: q in photos && Collides(photos[q], photo)) then Err(Conflict)
    else Ok(photos[id := photo])
  }

  /** Two rows of one table that may not exist together. */
  predicate Collides(a: Photo, b: Photo) {
    && a.parent.kind == b.parent.kind
    && (a.key == b.key || (a.parent == b.parent && a.page == b.page))
  }

  function InsertRows(photos: map<Id, Photo>, parent: Parent, news: seq<NewPhoto>, offset: int): Result<map<Id, Photo>> {
    if news == [] then Ok(photos)
    else
      var n := |news| - 1;
      match InsertRows(photos, parent, news[..n], offset)
      case Err(e) => Err(e)
      case Ok(m) => InsertOne(m, news[n].id, PhotoRow(parent, offset + n + 1, news[n]))
  }

  /** `insertPhotos`: promotion and metadata in one transaction. */
  function InsertPhotos(db: Db, parent: Parent, news: seq<NewPhoto>, offset: int, now: int): Result<Db> {
    match Promote(db, KeysOf(news), now)
    case Err(e) => Err(e)
    case Ok(promoted) =>
      match InsertRows(promoted.photos, parent, news, offset)
      case Err(e) => Err(e)
      case Ok(photos) => Ok(promoted.(photos := photos))
  }

  function PhotosOf(db: Db, parent: Parent): set<Id> {
    set p | p in db.photos && db.photos[p].parent == parent
  }

  // ----- the transactions

  function Create(db: Db, id: Id, slot: Slot, news: seq<NewPhoto>, now: int): Result<Db> {
    if slot.machine !in db.machines || slot.shift !in db.shifts then Err(InvalidReference)
    else if id in db.books || slot in db.books.Values then Err(Conflict)
    else InsertPhotos(db.(books := db.books[id := slot]), Parent(Logbook, id), news, 0, now)
  }

  function AppendPhotos(db: Db, id: Id, news: seq<NewPhoto>, maxPhotos: int, now: int): Result<Db> {
    var parent := Parent(Logbook, id);
    if id !in db.books then Err(NotFound)
    else if |PhotosOf(db, parent)| + |news| > maxPhotos then Err(TooManyPhotos)
    else InsertPhotos(db, parent, news, |PhotosOf(db, parent)|, now)
  }

  /** The photos of a message are promoted only if there are any. */
  function CreateMessage(db: Db, id: Id, row: MessageRow, news: seq<NewPhoto>, now: int): Result<Db> {
    if row.machine !in db.machines then Err(InvalidReference)
    else if id in db.messages then Err(Conflict)
    else
      var db := db.(messages := db.messages[id := row]);
      if news == [] then Ok(db) else InsertPhotos(db, Parent(Message, id), news, 0, now)
  }

  function KeysUnder(db: Db, parent: Parent): set<Key> {
    set p | p in PhotosOf(db, parent) :: db.photos[p].key
  }

  /** Queues the keys of a parent's photos and removes the photos. */
  function Detach(db: Db, parent: Parent, now: int): Result<Db> {
    var keys := KeysUnder(db, parent);
    if !(keys !! db.deletions.Keys) then Err(Conflict)
    else Ok(db.(
      deletions := db.deletions + (map k | k in keys :: Row(now, false)),
      photos := map p | p in db.photos && db.photos[p].parent != parent :: db.photos[p]))
  }

  function Delete(db: Db, id: Id, now: int): Result<Db> {
    if id !in db.books then Err(NotFound)
    else
      match Detach(db, Parent(Logbook, id), now)
      case Err(e) => Err(e)
      case Ok(d) => Ok(d.(books := d.books - {id}))
  }

  function DeleteMessage(db: Db, machine: int, id: Id, user: Id, now: int): Result<Db> {
    if id !in db.messages || db.messages[id].machine != machine || machine !in db.machines then Err(NotFound)
    else if db.messages[id].author != user then Err(Forbidden)
    else
      match Detach(db, Parent(Message, id), now)
      case Err(e) => Err(e)
      case Ok(d) => Ok(d.(messages := d.messages - {id}))
  }

  predicate Space(c: char) {
    ('\t' <= c <= '\r') || c == ' ' || c == '\U{0085}' || c == '\U{00a0}' || c == '\U{1680}' || ('\U{2000}' <= c <= '\U{200a}')
    || c == '\U{2028}' || c == '\U{2029}' || c == '\U{202f}' || c == '\U{205f}' || c == '\U{3000}'
  }

  /** Nothing is left of the text when it is trimmed. */
  predicate Blank(text: string) {
    forall c <- text :: Space(c)
  }

  /** Only the author edits, and the text may become blank only if a photo remains. */
  function EditMessage(db: Db, machine: int, id: Id, user: Id, text: string, now: int): Result<Db> {
    if id !in db.messages || db.messages[id].machine != machine || machine !in db.machines then Err(NotFound)
    else if db.messages[id].author != user then Err(Forbidden)
    else if Blank(text) && PhotosOf(db, Parent(Message, id)) == {} then Err(Validation)
    else if text == db.messages[id].text then Ok(db)
    else Ok(db.(messages := db.messages[id := db.messages[id].(text := text, edited := Some(now))]))
  }

  /** The author of a message may edit it, on its own active machine, and may leave the text
      blank only if a photo remains. */
  lemma EditSucceeds(db: Db, machine: int, id: Id, user: Id, text: string, now: int)
    ensures EditMessage(db, machine, id, user, text, now).Ok? <==>
      && id in db.messages && db.messages[id].machine == machine && machine in db.machines
      && db.messages[id].author == user
      && (Blank(text) ==> exists p :: p in db.photos && db.photos[p].parent == Parent(Message, id))
  {
    if exists p :: p in db.photos && db.photos[p].parent == Parent(Message, id) {
      var p :| p in db.photos && db.photos[p].parent == Parent(Message, id);
      assert p in PhotosOf(db, Parent(Message, id));
    } else {
      assert PhotosOf(db, Parent(Message, id)) == {};
    }
  }

  /** A new text is stored with the time of the edit; the same text changes nothing. Machine
      and author stay, and so does every other message and every other table. */
  lemma EditTouches(db: Db, machine: int, id: Id, user: Id, text: string, now: int)
    requires EditMessage(db, machine, id, user, text, now).Ok?
    ensures var r := EditMessage(db, machine, id, user, text, now).value;
      && id in db.messages && r == db.(messages := r.messages) && r.messages.Keys == db.messages.Keys
      && r.messages[id].text == text
      && r.messages[id].machine == db.messages[id].machine && r.messages[id].author == db.messages[id].author
      && r.messages[id].edited == (if text == db.messages[id].text then db.messages[id].edited else Some(now))
      && (forall m :: m in db.messages && m != id ==> r.messages[m] == db.messages[m])
  {
    var r := EditMessage(db, machine, id, user, text, now).value;
    assert r.messages.Keys == db.messages.Keys + {id};
  }

  predicate ParentExists(db: Db, parent: Parent, machine: int) {
    match parent.kind
    case Logbook => parent.id in db.books
    case Message => parent.id in db.messages && db.messages[parent.id].machine == machine && machine in db.machines
  }

  /** The marker update of a rotation. */
  function MovedMarker(marker: Marker, photo: Id, degrees: int): Marker {
    if marker.photo == photo then marker.(at := Update(marker.at, degrees)) else marker
  }

  /** Why a rotation may not replace the photo. `original` is the row that the caller
      read before it rotated the pixels. */
  function RotationRefusal(db: Db, user: Id, admin: bool, machine: int, photo: Id, original: Photo, degrees: int): Option<Error> {
    if !Legal(degrees) then Some(Validation)
    else if !ParentExists(db, original.parent, machine) then Some(NotFound)
    else if photo !in db.photos || db.photos[photo].parent != original.parent then Some(NotFound)
    else if !admin && db.photos[photo].uploader != user then Some(Forbidden)
    else if db.photos[photo].sha != original.sha || db.photos[photo].key != original.key then Some(Error.Conflict)
    else None
  }

  function RotatedRow(row: Photo, updated: NewPhoto): Photo {
    row.(contentType := updated.contentType, size := updated.size, key := updated.key, sha := updated.sha)
  }

  /** Another row of the photo's table already names the key. */
  predicate KeyTaken(db: Db, photo: Id, key: Key)
    requires photo in db.photos
  {
    exists q :: q in db.photos && q != photo && db.photos[q].parent.kind == db.photos[photo].parent.kind && db.photos[q].key == key
  }

  /** The compare-and-swap of a rotation: promote the new key, replace the file of the
      row, move its markers, queue the old key. */
  function ReplaceRotatedPhoto(db: Db, user: Id, admin: bool, machine: int, photo: Id, original: Photo, updated: NewPhoto,
                               degrees: int, now: int): Result<Db> {
    var refusal := RotationRefusal(db, user, admin, machine, photo, original, degrees);
    if refusal.Some? then Err(refusal.value)
    else
      match Promote(db, [updated.key], now)
      case Err(e) => Err(e)
      case Ok(promoted) =>
        if KeyTaken(db, photo, updated.key) || original.key in promoted.deletions then Err(Error.Conflict)
        else Ok(promoted.(
          photos := promoted.photos[photo := RotatedRow(db.photos[photo], updated)],
          markers := map m | m in db.markers :: MovedMarker(db.markers[m], photo, degrees),
          deletions := promoted.deletions[original.key := Row(now, false)]))
  }

  predicate Due(db: Db, key: Key, now: int) {
    key in db.deletions && db.deletions[key].notBefore <= now
  }

  /** The order in which due rows are claimed. */
  predicate Sooner(db: Db, a: Key, b: Key) {
    && a in db.deletions && b in db.deletions
    && (db.deletions[a].notBefore < db.deletions[b].notBefore ||
        (db.deletions[a].notBefore == db.deletions[b].notBefore && StringLess(a, b)))
  }

  /** Marks the chosen rows as claimed. */
  function Claim(db: Db, keys: set<Key>): Db {
    db.(deletions := map k | k in db.deletions ::
      if k in keys then db.deletions[k].(claimed := true) else db.deletions[k])
  }

  /** Removes the row of an erased object, if it is a claimed one. */
  function CompleteDeletion(db: Db, key: Key): Db {
    if key in db.deletions && db.deletions[key].claimed then db.(deletions := db.deletions - {key}) else db
  }

  // ----- what a successful transaction has done

  predicate Distinct<T(==)>(s: seq<T>) {
    forall i, j :: 0 <= i < j < |s| ==> s[i] != s[j]
  }

  function SetOf<T>(s: seq<T>): set<T> {
    set x | x in s
  }

  function IndexOf(keys: seq<Key>, key: Key): (i: nat)
    requires key in keys
    ensures i < |keys| && keys[i] == key
  {
    if keys[0] == key then 0 else 1 + IndexOf(keys[1..], key)
  }

  lemma DistinctAppend<T>(s: seq<T>, x: T)
    requires Distinct(s) && x !in s
    ensures Distinct(s + [x])
  {
  }

  lemma {:induction false} SizeOfSet<T>(s: seq<T>)
    ensures |SetOf(s)| <= |s|
    ensures |SetOf(s)| == |s| <==> Distinct(s)
  {
    if s != [] {
      var n := |s| - 1;
      var before, last := s[..n], s[n];
      SizeOfSet(before);
      assert SetOf(s) == SetOf(before) + {last};
      if last in before {
        assert SetOf(s) == SetOf(before);
        var i :| 0 <= i < n && before[i] == last;
        assert s[i] == s[n];
      } else if Distinct(before) {
        assert s == before + [last];
        DistinctAppend(before, last);
      } else {
        var i, j :| 0 <= i < j < |before| && before[i] == before[j];
        assert s[i] == s[j];
      }
    }
  }

  /** The count comparison accepts exactly the batches in which every key is a
      different, unclaimed, unexpired reservation. */
  lemma PromoteIff(db: Db, keys: seq<Key>, now: int)
    ensures Promote(db, keys, now).Ok? <==> Distinct(keys) && forall k <- keys :: Promotable(db, k, now)
    ensures Promote(db, keys, now).Ok? ==>
      Promote(db, keys, now).value == db.(deletions := db.deletions - SetOf(keys))
  {
    var hit := set k | k in keys && Promotable(db, k, now);
    SizeOfSet(keys);
    SubsetOfSameSize(hit, SetOf(keys));
    if |hit| == |keys| {
      forall k <- keys ensures Promotable(db, k, now) {
        assert k in SetOf(keys);
      }
    } else if forall k <- keys :: Promotable(db, k, now) {
      assert hit == SetOf(keys);
    }
  }

  function IdsOf(news: seq<NewPhoto>): (r: seq<Id>)
    ensures |r| == |news| && forall i :: 0 <= i < |r| ==> r[i] == news[i].id
  {
    seq(|news|, i requires 0 <= i < |news| => news[i].id)
  }

  /** `after` is `before` with one row per new photo, on consecutive pages. */
  ghost predicate Extends(before: map<Id, Photo>, after: map<Id, Photo>, parent: Parent, news: seq<NewPhoto>, offset: int) {
    && after.Keys == before.Keys + SetOf(IdsOf(news))
    && Distinct(IdsOf(news))
    && (forall i :: 0 <= i < |news| ==> news[i].id !in before && after[news[i].id] == PhotoRow(parent, offset + i + 1, news[i]))
    && forall p :: p in before ==> after[p] == before[p]
  }

  lemma {:induction false} InsertRowsKeys(photos: map<Id, Photo>, parent: Parent, news: seq<NewPhoto>, offset: int)
    requires InsertRows(photos, parent, news, offset).Ok?
    ensures InsertRows(photos, parent, news, offset).value.Keys == photos.Keys + SetOf(IdsOf(news))
    ensures Distinct(IdsOf(news))
  {
    if news != [] {
      var n := |news| - 1;
      InsertRowsKeys(photos, parent, news[..n], offset);
      assert IdsOf(news) == IdsOf(news[..n]) + [news[n].id];
      assert SetOf(IdsOf(news)) == SetOf(IdsOf(news[..n])) + {news[n].id};
      DistinctAppend(IdsOf(news[..n]), news[n].id);
    }
  }

  lemma {:induction false} InsertRowsNew(photos: map<Id, Photo>, parent: Parent, news: seq<NewPhoto>, offset: int, i: nat)
    requires InsertRows(photos, parent, news, offset).Ok? && i < |news|
    ensures var r := InsertRows(photos, parent, news, offset).value;
      && news[i].id in r && r[news[i].id] == PhotoRow(parent, offset + i + 1, news[i])
      && news[i].id !in photos
  {
    var n := |news| - 1;
    InsertRowsKeys(photos, parent, news[..n], offset);
    if i < n {
      InsertRowsNew(photos, parent, news[..n], offset, i);
    }
  }

  lemma {:induction false} InsertRowsOld(photos: map<Id, Photo>, parent: Parent, news: seq<NewPhoto>, offset: int, p: Id)
    requires InsertRows(photos, parent, news, offset).Ok? && p in photos
    ensures var r := InsertRows(photos, parent, news, offset).value; p in r && r[p] == photos[p]
  {
    if news != [] {
      InsertRowsOld(photos, parent, news[..|news| - 1], offset, p);
    }
  }

  lemma InsertRowsExtends(photos: map<Id, Photo>, parent: Parent, news: seq<NewPhoto>, offset: int)
    requires InsertRows(photos, parent, news, offset).Ok?
    ensures Extends(photos, InsertRows(photos, parent, news, offset).value, parent, news, offset)
  {
    InsertRowsKeys(photos, parent, news, offset);
    var r := InsertRows(photos, parent, news, offset).value;
    forall i | 0 <= i < |news|
      ensures news[i].id in r && r[news[i].id] == PhotoRow(parent, offset + i + 1, news[i]) && news[i].id !in photos
    {
      InsertRowsNew(photos, parent, news, offset, i);
    }
    forall p | p in photos ensures p in r && r[p] == photos[p] {
      InsertRowsOld(photos, parent, news, offset, p);
    }
  }

  /** An insert fails on the first row that fails. */
  lemma {:induction false} InsertRowsPrefix(photos: map<Id, Photo>, parent: Parent, news: seq<NewPhoto>, offset: int, i: nat)
    requires i <= |news|
    requires InsertRows(photos, parent, news[..i], offset).Err?
    ensures InsertRows(photos, parent, news, offset) == InsertRows(photos, parent, news[..i], offset)
  {
    if i == |news| {
      assert news[..i] == news;
    } else {
      var n := |news| - 1;
      assert news[..n][..i] == news[..i];
      InsertRowsPrefix(photos, parent, news[..n], offset, i);
    }
  }

  /** The keys that photo rows name. */
  function Attached(db: Db): set<Key> {
    set p | p in db.photos :: db.photos[p].key
  }

  /** A successful attachment of new photos to a parent. */
  ghost predicate Attaches(before: Db, after: Db, parent: Parent, news: seq<NewPhoto>, offset: int, now: int) {
    && Distinct(KeysOf(news))
    && (forall i :: 0 <= i < |news| ==> Promotable(before, news[i].key, now))
    && after.deletions == before.deletions - SetOf(KeysOf(news))
    && Extends(before.photos, after.photos, parent, news, offset)
    && after.markers == before.markers
  }

  lemma InsertPhotosAttaches(db: Db, parent: Parent, news: seq<NewPhoto>, offset: int, now: int)
    requires InsertPhotos(db, parent, news, offset, now).Ok?
    ensures Attaches(db, InsertPhotos(db, parent, news, offset, now).value, parent, news, offset, now)
    ensures var r := InsertPhotos(db, parent, news, offset, now).value;
      r.books == db.books && r.messages == db.messages
  {
    PromoteIff(db, KeysOf(news), now);
    InsertRowsExtends(db.photos, parent, news, offset);
    forall i | 0 <= i < |news| ensures Promotable(db, news[i].key, now) {
      assert KeysOf(news)[i] in KeysOf(news);
    }
  }

  lemma CreateAttaches(db: Db, id: Id, slot: Slot, news: seq<NewPhoto>, now: int)
    requires Create(db, id, slot, news, now).Ok?
    ensures Attaches(db, Create(db, id, slot, news, now).value, Parent(Logbook, id), news, 0, now)
  {
    InsertPhotosAttaches(db.(books := db.books[id := slot]), Parent(Logbook, id), news, 0, now);
    var begun := db.(books := db.books[id := slot]);
    assert forall i :: 0 <= i < |news| ==> Promotable(begun, news[i].key, now) == Promotable(db, news[i].key, now);
  }

  lemma CreateMessageAttaches(db: Db, id: Id, row: MessageRow, news: seq<NewPhoto>, now: int)
    requires CreateMessage(db, id, row, news, now).Ok?
    ensures Attaches(db, CreateMessage(db, id, row, news, now).value, Parent(Message, id), news, 0, now)
  {
    var begun := db.(messages := db.messages[id := row]);
    if news != [] {
      InsertPhotosAttaches(begun, Parent(Message, id), news, 0, now);
      assert forall i :: 0 <= i < |news| ==> Promotable(begun, news[i].key, now) == Promotable(db, news[i].key, now);
    } else {
      assert SetOf(KeysOf(news)) == {} && SetOf(IdsOf(news)) == {};
    }
  }

  /** A successful rotation: one row changes its file, its key changes place with
      the old one, and its markers move. */
  ghost predicate Replaces(before: Db, after: Db, photo: Id, original: Photo, updated: NewPhoto, degrees: int, now: int) {
    && Legal(degrees)
    && photo in before.photos
    && before.photos[photo].key == original.key && before.photos[photo].sha == original.sha
    && Promotable(before, updated.key, now)
    && after.photos == before.photos[photo := before.photos[photo].(
         contentType := updated.contentType, size := updated.size, key := updated.key, sha := updated.sha)]
    && after.deletions == (before.deletions - {updated.key})[original.key := Row(now, false)]
    && after.markers.Keys == before.markers.Keys
    && (forall m :: m in before.markers ==> after.markers[m] == MovedMarker(before.markers[m], photo, degrees))
  }

  lemma RotationReplaces(db: Db, user: Id, admin: bool, machine: int, photo: Id, original: Photo, updated: NewPhoto,
                         degrees: int, now: int)
    requires ReplaceRotatedPhoto(db, user, admin, machine, photo, original, updated, degrees, now).Ok?
    ensures var r := ReplaceRotatedPhoto(db, user, admin, machine, photo, original, updated, degrees, now).value;
      && Replaces(db, r, photo, original, updated, degrees, now)
      && r.books == db.books && r.messages == db.messages
  {
    PromoteIff(db, [updated.key], now);
    assert updated.key in [updated.key];
    assert SetOf([updated.key]) == {updated.key};
  }

  /** A successful removal: the photos of a parent go, their keys are queued. */
  ghost predicate Detaches(before: Db, after: Db, parent: Parent, now: int) {
    && KeysUnder(before, parent) !! before.deletions.Keys
    && after.deletions.Keys == before.deletions.Keys + KeysUnder(before, parent)
    && (forall k :: k in before.deletions ==> after.deletions[k] == before.deletions[k])
    && (forall k :: k in KeysUnder(before, parent) ==> after.deletions[k] == Row(now, false))
    && (forall p :: p in after.photos <==> p in before.photos && before.photos[p].parent != parent)
    && (forall p :: p in after.photos ==> after.photos[p] == before.photos[p])
    && after.markers == before.markers
  }

  lemma DetachDetaches(db: Db, parent: Parent, now: int)
    requires Detach(db, parent, now).Ok?
    ensures Detaches(db, Detach(db, parent, now).value, parent, now)
  {
    assert Detach(db, parent, now).value.deletions.Keys == db.deletions.Keys + KeysUnder(db, parent);
  }

  lemma DeleteDetaches(db: Db, id: Id, now: int)
    requires Delete(db, id, now).Ok?
    ensures Detaches(db, Delete(db, id, now).value, Parent(Logbook, id), now)
  {
    DetachDetaches(db, Parent(Logbook, id), now);
  }

  lemma DeleteMessageDetaches(db: Db, machine: int, id: Id, user: Id, now: int)
    requires DeleteMessage(db, machine, id, user, now).Ok?
    ensures Detaches(db, DeleteMessage(db, machine, id, user, now).value, Parent(Message, id), now)
  {
    DetachDetaches(db, Parent(Message, id), now);
  }

  // ----- row by row: when the transactions succeed, and what they leave

  /** The rows of reservations: neither claimed nor expired. */
  lemma PromoteRows(db: Db, keys: seq<Key>, now: int)
    ensures Promote(db, keys, now).Ok? <==>
      && Distinct(keys)
      && forall k <- keys :: k in db.deletions && !db.deletions[k].claimed && db.deletions[k].notBefore > now
    ensures Promote(db, keys, now).Err? ==> Promote(db, keys, now).error == UploadExpired
  {
    PromoteIff(db, keys, now);
  }

  /** The constraints of a photo table: the id is new, and no row of the table has the key,
      or the page under the same parent. */
  lemma InsertOneIff(photos: map<Id, Photo>, id: Id, photo: Photo)
    ensures InsertOne(photos, id, photo).Ok? <==>
      && id !in photos
      && forall q :: q in photos && photos[q].parent.kind == photo.parent.kind ==>
        photos[q].key != photo.key && (photos[q].parent == photo.parent ==> photos[q].page != photo.page)
    ensures InsertOne(photos, id, photo).Err? ==> InsertOne(photos, id, photo).error == Error.Conflict
  {
  }

  /** Room for new rows: new ids and keys, and free pages behind `offset`. */
  predicate Room(photos: map<Id, Photo>, parent: Parent, news: seq<NewPhoto>, offset: int) {
    && (forall i, j :: 0 <= i < j < |news| ==> news[i].id != news[j].id && news[i].key != news[j].key)
    && forall i :: 0 <= i < |news| ==> RoomFor(photos, parent, news[i].id, news[i].key, offset + i + 1)
  }

  predicate RoomFor(photos: map<Id, Photo>, parent: Parent, id: Id, key: Key, page: int) {
    && id !in photos
    && forall q :: q in photos && photos[q].parent.kind == parent.kind ==>
      photos[q].key != key && (photos[q].parent == parent ==> photos[q].page != page)
  }

  /** The last row fits behind the others if and only if it fits before them and differs
      from them. */
  lemma RoomBehind(photos: map<Id, Photo>, after: map<Id, Photo>, parent: Parent, news: seq<NewPhoto>, offset: int, last: NewPhoto)
    requires Extends(photos, after, parent, news, offset)
    ensures RoomFor(after, parent, last.id, last.key, offset + |news| + 1) <==>
      && RoomFor(photos, parent, last.id, last.key, offset + |news| + 1)
      && forall i :: 0 <= i < |news| ==> news[i].id != last.id && news[i].key != last.key
  {
    var page := offset + |news| + 1;
    assert forall i :: 0 <= i < |news| ==> IdsOf(news)[i] in after;
    if RoomFor(after, parent, last.id, last.key, page) {
      assert forall i :: 0 <= i < |news| ==> IdsOf(news)[i] != last.id;
    } else if RoomFor(photos, parent, last.id, last.key, page) {
      if last.id !in after {
        var q :| q in after && after[q].parent.kind == parent.kind
          && (after[q].key == last.key || (after[q].parent == parent && after[q].page == page));
        assert q in IdsOf(news);
      }
    }
  }

  lemma OneFits(photos: map<Id, Photo>, parent: Parent, n: NewPhoto, page: int)
    ensures InsertOne(photos, n.id, PhotoRow(parent, page, n)).Ok? <==> RoomFor(photos, parent, n.id, n.key, page)
  {
    InsertOneIff(photos, n.id, PhotoRow(parent, page, n));
  }

  lemma LastFits(photos: map<Id, Photo>, after: map<Id, Photo>, parent: Parent, news: seq<NewPhoto>, offset: int)
    requires news != [] && Extends(photos, after, parent, news[..|news| - 1], offset)
    requires Room(photos, parent, news[..|news| - 1], offset)
    ensures var n := |news| - 1;
      InsertOne(after, news[n].id, PhotoRow(parent, offset + n + 1, news[n])).Ok? <==> Room(photos, parent, news, offset)
  {
    var n := |news| - 1;
    RoomBehind(photos, after, parent, news[..n], offset, news[n]);
    OneFits(after, parent, news[n], offset + n + 1);
    RoomNext(photos, parent, news, offset);
  }

  /** The rows of a batch are inserted if and only if there is room for them. */
  lemma {:induction false} InsertRowsIff(photos: map<Id, Photo>, parent: Parent, news: seq<NewPhoto>, offset: int)
    ensures InsertRows(photos, parent, news, offset).Ok? <==> Room(photos, parent, news, offset)
  {
    if news != [] {
      var front := news[..|news| - 1];
      InsertRowsIff(photos, parent, front, offset);
      var tried := InsertRows(photos, parent, front, offset);
      if tried.Ok? {
        InsertRowsExtends(photos, parent, front, offset);
        LastFits(photos, tried.value, parent, news, offset);
      } else if Room(photos, parent, news, offset) {
        RoomFront(photos, parent, news, offset, |news| - 1);
      }
    }
  }

  lemma RoomFront(photos: map<Id, Photo>, parent: Parent, news: seq<NewPhoto>, offset: int, n: nat)
    requires n <= |news| && Room(photos, parent, news, offset)
    ensures Room(photos, parent, news[..n], offset)
  {
  }

  lemma RoomNext(photos: map<Id, Photo>, parent: Parent, news: seq<NewPhoto>, offset: int)
    requires news != []
    ensures var n := |news| - 1;
      Room(photos, parent, news, offset) <==>
        && Room(photos, parent, news[..n], offset)
        && RoomFor(photos, parent, news[n].id, news[n].key, offset + n + 1)
        && forall i :: 0 <= i < n ==> news[i].id != news[n].id && news[i].key != news[n].key
  {
    var n := |news| - 1;
    var front := news[..n];
    assert forall i :: 0 <= i < n ==> front[i] == news[i];
  }

  /** Every reservation of the batch is neither claimed nor expired. */
  predicate AllReserved(db: Db, news: seq<NewPhoto>, now: int) {
    forall i :: 0 <= i < |news| ==>
      news[i].key in db.deletions && !db.deletions[news[i].key].claimed && db.deletions[news[i].key].notBefore > now
  }

  lemma InsertPhotosIff(db: Db, parent: Parent, news: seq<NewPhoto>, offset: int, now: int)
    ensures InsertPhotos(db, parent, news, offset, now).Ok? <==> AllReserved(db, news, now) && Room(db.photos, parent, news, offset)
  {
    PromoteRows(db, KeysOf(news), now);
    KeysStand(db, news, now);
    InsertRowsIff(db.photos, parent, news, offset);
    assert Room(db.photos, parent, news, offset) ==> Distinct(KeysOf(news));
  }

  /** When the three transactions with photos commit: what they refer to is there, the id or
      slot is free, the reservations stand, and there is room for the rows. */
  lemma CreateIff(db: Db, id: Id, slot: Slot, news: seq<NewPhoto>, now: int)
    ensures Create(db, id, slot, news, now).Ok? <==>
      && slot.machine in db.machines && slot.shift in db.shifts
      && id !in db.books && (forall b :: b in db.books ==> db.books[b] != slot)
      && AllReserved(db, news, now) && Room(db.photos, Parent(Logbook, id), news, 0)
  {
    InsertPhotosIff(db.(books := db.books[id := slot]), Parent(Logbook, id), news, 0, now);
  }

  lemma AppendIff(db: Db, id: Id, news: seq<NewPhoto>, maxPhotos: int, now: int)
    ensures var there := set p | p in db.photos && db.photos[p].parent.kind.Logbook? && db.photos[p].parent.id == id;
      AppendPhotos(db, id, news, maxPhotos, now).Ok? <==>
        && id in db.books && |there| + |news| <= maxPhotos
        && AllReserved(db, news, now) && Room(db.photos, Parent(Logbook, id), news, |there|)
  {
    var there := set p | p in db.photos && db.photos[p].parent.kind.Logbook? && db.photos[p].parent.id == id;
    assert there == PhotosOf(db, Parent(Logbook, id));
    InsertPhotosIff(db, Parent(Logbook, id), news, |there|, now);
  }

  lemma CreateMessageIff(db: Db, id: Id, row: MessageRow, news: seq<NewPhoto>, now: int)
    ensures CreateMessage(db, id, row, news, now).Ok? <==>
      && row.machine in db.machines && id !in db.messages
      && AllReserved(db, news, now) && Room(db.photos, Parent(Message, id), news, 0)
  {
    InsertPhotosIff(db.(messages := db.messages[id := row]), Parent(Message, id), news, 0, now);
  }

  lemma KeysStand(db: Db, news: seq<NewPhoto>, now: int)
    ensures (forall k <- KeysOf(news) :: k in db.deletions && !db.deletions[k].claimed && db.deletions[k].notBefore > now)
      <==> AllReserved(db, news, now)
  {
    assert forall i :: 0 <= i < |news| ==> KeysOf(news)[i] == news[i].key && KeysOf(news)[i] in KeysOf(news);
  }

  /** Reservations, row by row: all of the keys are new and different, and get a row that is
      not claimed; or nothing changes. */
  lemma ReservationRows(db: Db, keys: seq<Key>, expires: int)
    ensures var r := ReserveUploads(db, keys, expires);
      && (r.Ok? <==> (forall k <- keys :: k !in db.deletions) && forall i, j :: 0 <= i < j < |keys| ==> keys[i] != keys[j])
      && (r.Err? ==> r.error == Error.Conflict)
      && (r.Ok? ==>
        && r.value == db.(deletions := r.value.deletions)
        && (forall k :: k in r.value.deletions <==> k in db.deletions || k in keys)
        && (forall k <- keys :: r.value.deletions[k].notBefore == expires && !r.value.deletions[k].claimed)
        && (forall k :: k in db.deletions ==> r.value.deletions[k] == db.deletions[k]))
  {
  }

  /** The row of a photo that has been inserted: what was prepared, under its parent, on the
      next page; and its reservation is gone. */
  lemma InsertedRow(before: Db, after: Db, parent: Parent, news: seq<NewPhoto>, offset: int, now: int, i: nat)
    requires Attaches(before, after, parent, news, offset, now) && i < |news|
    ensures news[i].id in after.photos && news[i].key !in after.deletions
    ensures var row := after.photos[news[i].id];
      && row.parent == parent && row.page == offset + i + 1 && row.key == news[i].key
      && row.contentType == news[i].contentType && row.size == news[i].size && row.sha == news[i].sha
      && row.uploader == news[i].uploader
  {
    assert KeysOf(news)[i] in SetOf(KeysOf(news));
  }

  /** The answers of a creation, in the order of its checks. */
  lemma CreateAnswers(db: Db, id: Id, slot: Slot, news: seq<NewPhoto>, now: int)
    ensures var r := Create(db, id, slot, news, now);
      if slot.machine !in db.machines || slot.shift !in db.shifts then r == Err(InvalidReference)
      else if id in db.books || exists b :: b in db.books && db.books[b] == slot then r == Err(Error.Conflict)
      else if Promote(db, KeysOf(news), now).Err? then r == Err(UploadExpired)
      else if r.Err? then r.error == Error.Conflict
      else r.value.books == db.books[id := slot] && r.value.messages == db.messages && r.value.markers == db.markers
  {
    var begun := db.(books := db.books[id := slot]);
    PromoteRows(db, KeysOf(news), now);
    PromoteRows(begun, KeysOf(news), now);
    InsertErrors(db.photos, Parent(Logbook, id), news, 0);
  }

  lemma {:induction false} InsertErrors(photos: map<Id, Photo>, parent: Parent, news: seq<NewPhoto>, offset: int)
    ensures InsertRows(photos, parent, news, offset).Err? ==> InsertRows(photos, parent, news, offset).error == Error.Conflict
  {
    if news != [] {
      InsertErrors(photos, parent, news[..|news| - 1], offset);
    }
  }

  lemma AppendAnswers(db: Db, id: Id, news: seq<NewPhoto>, maxPhotos: int, now: int)
    ensures var r := AppendPhotos(db, id, news, maxPhotos, now);
      if id !in db.books then r == Err(NotFound)
      else if |PhotosOf(db, Parent(Logbook, id))| + |news| > maxPhotos then r == Err(TooManyPhotos)
      else if Promote(db, KeysOf(news), now).Err? then r == Err(UploadExpired)
      else if r.Err? then r.error == Error.Conflict
      else r.value.books == db.books && r.value.messages == db.messages && r.value.markers == db.markers
  {
    PromoteRows(db, KeysOf(news), now);
    InsertErrors(db.photos, Parent(Logbook, id), news, |PhotosOf(db, Parent(Logbook, id))|);
  }

  lemma CreateMessageAnswers(db: Db, id: Id, row: MessageRow, news: seq<NewPhoto>, now: int)
    ensures var r := CreateMessage(db, id, row, news, now);
      if row.machine !in db.machines then r == Err(InvalidReference)
      else if id in db.messages then r == Err(Error.Conflict)
      else if news == [] then r == Ok(db.(messages := db.messages[id := row]))
      else if Promote(db, KeysOf(news), now).Err? then r == Err(UploadExpired)
      else if r.Err? then r.error == Error.Conflict
      else r.value.messages == db.messages[id := row] && r.value.books == db.books && r.value.markers == db.markers
  {
    PromoteRows(db, KeysOf(news), now);
    PromoteRows(db.(messages := db.messages[id := row]), KeysOf(news), now);
    InsertErrors(db.photos, Parent(Message, id), news, 0);
  }

  /** No key of a photo of the parent is in the queue. */
  predicate KeysUnqueued(db: Db, parent: Parent) {
    forall p :: p in db.photos && db.photos[p].parent == parent ==> db.photos[p].key !in db.deletions
  }

  lemma DetachIff(db: Db, parent: Parent, now: int)
    ensures Detach(db, parent, now).Ok? <==> KeysUnqueued(db, parent)
    ensures Detach(db, parent, now).Err? ==> Detach(db, parent, now).error == Error.Conflict
  {
    if !KeysUnqueued(db, parent) {
      var p :| p in db.photos && db.photos[p].parent == parent && db.photos[p].key in db.deletions;
      assert p in PhotosOf(db, parent) && db.photos[p].key in KeysUnder(db, parent);
    }
  }

  lemma RemovalAnswers(db: Db, machine: int, id: Id, user: Id, now: int)
    ensures var r := Delete(db, id, now);
      if id !in db.books then r == Err(NotFound)
      else if !KeysUnqueued(db, Parent(Logbook, id)) then r == Err(Error.Conflict)
      else r.Ok? && r.value.books == db.books - {id} && r.value.messages == db.messages
    ensures var r := DeleteMessage(db, machine, id, user, now);
      if id !in db.messages || db.messages[id].machine != machine || machine !in db.machines then r == Err(NotFound)
      else if db.messages[id].author != user then r == Err(Forbidden)
      else if !KeysUnqueued(db, Parent(Message, id)) then r == Err(Error.Conflict)
      else r.Ok? && r.value.messages == db.messages - {id} && r.value.books == db.books
  {
    DetachIff(db, Parent(Logbook, id), now);
    DetachIff(db, Parent(Message, id), now);
  }

  /** A removed photo leaves its key in the queue, due at once and not claimed. */
  lemma DetachedKey(before: Db, after: Db, parent: Parent, now: int, p: Id)
    requires Detaches(before, after, parent, now) && p in before.photos
    ensures before.photos[p].parent == parent ==>
      && p !in after.photos && before.photos[p].key in after.deletions
      && after.deletions[before.photos[p].key].notBefore == now && !after.deletions[before.photos[p].key].claimed
    ensures before.photos[p].parent != parent ==> p in after.photos && after.photos[p] == before.photos[p]
  {
    if before.photos[p].parent == parent {
      assert p in PhotosOf(before, parent) && before.photos[p].key in KeysUnder(before, parent);
    }
  }

  lemma EditAnswers(db: Db, machine: int, id: Id, user: Id, text: string, now: int)
    ensures var r := EditMessage(db, machine, id, user, text, now);
      if id !in db.messages || db.messages[id].machine != machine || machine !in db.machines then r == Err(NotFound)
      else if db.messages[id].author != user then r == Err(Forbidden)
      else r.Ok? || r == Err(Validation)
  {
  }

  /** The rotations that are committed: a legal angle, the parent is there and the photo under
      it, an admin or the uploader, the photo unchanged since it was read, the reservation
      neither claimed nor expired, and no other claim to either key. */
  lemma RotationCommits(db: Db, user: Id, admin: bool, machine: int, photo: Id, original: Photo, updated: NewPhoto,
                        degrees: int, now: int)
    ensures ReplaceRotatedPhoto(db, user, admin, machine, photo, original, updated, degrees, now).Ok? <==>
      && (degrees == 90 || degrees == 180 || degrees == -90)
      && (original.parent.kind.Logbook? ==> original.parent.id in db.books)
      && (original.parent.kind.Message? ==>
            && original.parent.id in db.messages && db.messages[original.parent.id].machine == machine && machine in db.machines)
      && photo in db.photos && db.photos[photo].parent == original.parent
      && (admin || db.photos[photo].uploader == user)
      && db.photos[photo].sha == original.sha && db.photos[photo].key == original.key
      && updated.key in db.deletions && !db.deletions[updated.key].claimed && db.deletions[updated.key].notBefore > now
      && (original.key in db.deletions ==> original.key == updated.key)
      && forall q :: q in db.photos && q != photo && db.photos[q].parent.kind == original.parent.kind ==> db.photos[q].key != updated.key
  {
    PromoteRows(db, [updated.key], now);
    PromoteIff(db, [updated.key], now);
    assert updated.key in [updated.key] && SetOf([updated.key]) == {updated.key};
  }

  /** The answers of a rotation that is refused by a check. */
  lemma RotationAnswers(db: Db, user: Id, admin: bool, machine: int, photo: Id, original: Photo, updated: NewPhoto,
                        degrees: int, now: int)
    ensures var r := ReplaceRotatedPhoto(db, user, admin, machine, photo, original, updated, degrees, now);
      var there := if original.parent.kind.Logbook? then original.parent.id in db.books
        else original.parent.id in db.messages && db.messages[original.parent.id].machine == machine && machine in db.machines;
      if degrees != 90 && degrees != 180 && degrees != -90 then r == Err(Validation)
      else if !there || photo !in db.photos || db.photos[photo].parent != original.parent then r == Err(NotFound)
      else if !admin && db.photos[photo].uploader != user then r == Err(Forbidden)
      else if db.photos[photo].sha != original.sha || db.photos[photo].key != original.key then r == Err(Error.Conflict)
      else if Promote(db, [updated.key], now).Err? then r == Err(UploadExpired)
      else r.Err? ==> r.error == Error.Conflict
  {
    PromoteRows(db, [updated.key], now);
  }

  /** The row of a rotated photo: the new file, and everything else as it was. */
  lemma RotatedPhoto(before: Db, after: Db, photo: Id, original: Photo, updated: NewPhoto, degrees: int, now: int)
    requires Replaces(before, after, photo, original, updated, degrees, now)
    ensures photo in after.photos
    ensures var was, row := before.photos[photo], after.photos[photo];
      && row.contentType == updated.contentType && row.size == updated.size && row.sha == updated.sha && row.key == updated.key
      && row.parent == was.parent && row.page == was.page && row.uploader == was.uploader
    ensures original.key in after.deletions && after.deletions[original.key].notBefore == now && !after.deletions[original.key].claimed
    ensures updated.key != original.key ==> updated.key !in after.deletions
    ensures forall p :: p in before.photos && p != photo ==> p in after.photos && after.photos[p] == before.photos[p]
  {
  }

  /** A claim marks the rows of its keys and changes no time. */
  lemma ClaimedRow(db: Db, keys: set<Key>, k: Key)
    ensures Claim(db, keys) == db.(deletions := Claim(db, keys).deletions)
    ensures k in Claim(db, keys).deletions <==> k in db.deletions
    ensures k in db.deletions ==>
      && Claim(db, keys).deletions[k].notBefore == db.deletions[k].notBefore
      && (Claim(db, keys).deletions[k].claimed <==> db.deletions[k].claimed || k in keys)
  {
  }

  /** Only a claimed row is completed: a reservation stays. */
  lemma CompletedRow(db: Db, key: Key, k: Key)
    ensures CompleteDeletion(db, key) == db.(deletions := CompleteDeletion(db, key).deletions)
    ensures k in CompleteDeletion(db, key).deletions <==> k in db.deletions && !(k == key && db.deletions[k].claimed)
    ensures k in CompleteDeletion(db, key).deletions ==> CompleteDeletion(db, key).deletions[k] == db.deletions[k]
  {
  }

  /** White space as Unicode defines it. */
  lemma SpaceIff(c: char)
    ensures Space(c) <==> c as int in {0x9, 0xa, 0xb, 0xc, 0xd, 0x20, 0x85, 0xa0, 0x1680, 0x2000, 0x2001, 0x2002, 0x2003, 0x2004, 0x2005,
      0x2006, 0x2007, 0x2008, 0x2009, 0x200a, 0x2028, 0x2029, 0x202f, 0x205f, 0x3000}
  {
  }
}
