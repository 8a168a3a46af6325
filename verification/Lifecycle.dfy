/** The life of stored objects: uploads, rotations, removals and cleanup workers
    interleaved over one database and one object store. Each transaction and each
    store call is one atomic step. */
module Lifecycle {
  import opened Common
  import opened Turns
  import opened Pixels
  import opened Markers
  import opened Database

  /** The libraries seen from outside: the displayed image of a file, the file that a
      rotation produces unless it is refused, the content hash, the size and the content
      type. */
  datatype Files<!B, !T> = Files(
    view: B -> Image<T>, rotate: (B, int) -> Option<B>, hash: B -> string, size: B -> int, kind: B -> string)

  /** A rotation remembers the row it read, the file it opened and its angle. */
  datatype Rotation = Rotation(photo: Id, original: Photo, degrees: int)

  /** A request that has reserved its keys. `done` puts have landed. A request that is
      not alive no longer runs, but the put it had sent may still land. */
  datatype Upload<B> = Upload(news: seq<NewPhoto>, files: seq<B>, done: nat, alive: bool, rotation: Option<Rotation>)

  /** The claimed keys a worker holds; `erased` once the store deleted the first. */
  datatype Worker = Worker(keys: seq<Key>, erased: bool)

  /** A committed rotation. */
  datatype Commit = Commit(photo: Id, from: Key, to: Key, degrees: int)

  /** The first file of a photo and the angles committed since. */
  datatype Origin<B> = Origin(first: B, angles: seq<int>)

  /** Where a marker was placed, and after how many rotations. */
  datatype Mark = Mark(at: Point, since: nat)

  /** The database, the clock, the store and the running processes; then the history:
      the file chosen for each issued key, the keys that were ever claimed, the keys
      that photo rows once named, the photo ids ever chosen, the committed rotations,
      and the origins of photos and markers. */
  datatype World<B> = World(
    db: Db, clock: int, store: map<Key, B>, uploads: map<nat, Upload<B>>, workers: map<nat, Worker>,
    content: map<Key, B>, dead: set<Key>, detached: set<Key>, used: set<Id>,
    commits: seq<Commit>, origins: map<Id, Origin<B>>, marks: map<Id, Mark>)

  /** A request: it chooses and reserves its keys, puts its files, and may die. */
  datatype RequestStep<B> =
    | Begin(pid: nat, news: seq<NewPhoto>, files: seq<B>, expires: int, alive: bool)
    | BeginRotation(pid: nat, rotation: Rotation, updated: NewPhoto, expires: int, alive: bool)
    | Put(pid: nat)
    | Crash(pid: nat)

  /** The transactions that attach the photos of a request. */
  datatype CommitStep =
    | CommitBook(pid: nat, id: Id, slot: Slot)
    | CommitAppend(pid: nat, id: Id, maxPhotos: int)
    | CommitMessage(pid: nat, id: Id, row: MessageRow)

  /** The transaction that swaps a rotated file in. */
  datatype SwapStep = Swap(pid: nat, user: Id, admin: bool, machine: int)

  datatype RemovalStep =
    | RemoveBook(id: Id)
    | RemoveMessage(machine: int, id: Id, user: Id)

  /** A cleanup worker: it claims rows, and for each deletes the object and the row, or
      skips it; it may forget its list. */
  datatype WorkerStep =
    | ClaimRows(wid: nat, keys: seq<Key>)
    | Erase(wid: nat, reported: bool)
    | CompleteRow(wid: nat)
    | Skip(wid: nat)
    | Lose(wid: nat)

  datatype OtherStep =
    | Tick(elapsed: nat)
    | TextMessage(id: Id, row: MessageRow)
    | EditText(machine: int, id: Id, user: Id, text: string)
    | AddMarker(marker: Id, photo: Id, at: Point)
    | RemoveMarker(marker: Id)

  datatype Step<B> =
    | OfRequest(request: RequestStep<B>)
    | OfCommit(commit: CommitStep)
    | OfSwap(swap: SwapStep)
    | OfRemoval(removal: RemovalStep)
    | OfWorker(work: WorkerStep)
    | Other(other: OtherStep)

  ghost predicate Describes<B, T>(f: Files<B, T>, contentType: string, size: int, sha: string, file: B) {
    contentType == f.kind(file) && size == f.size(file) && sha == f.hash(file)
  }

  predicate Fresh<B>(w: World<B>, key: Key) {
    key !in w.content
  }

  /** A request that has stored all its files and may run its transaction. */
  predicate Ready<B>(w: World<B>, pid: nat, rotates: bool) {
    && pid in w.uploads && w.uploads[pid].alive
    && w.uploads[pid].done == |w.uploads[pid].news|
    && w.uploads[pid].rotation.Some? == rotates
    && (rotates ==> |w.uploads[pid].news| == 1)
  }

  predicate Holds<B>(w: World<B>, wid: nat) {
    wid in w.workers && w.workers[wid].keys != []
  }

  // ----- what each kind of step does

  /** What the code and the outside world demand of a request. New keys and photo ids are
      fresh, as random UUIDs are assumed to be. The file a rotation opened is the one
      stored under the key it read, and its hash was checked against the row. */
  ghost predicate RequestEnabled<B, T>(f: Files<B, T>, w: World<B>, s: RequestStep<B>) {
    match s
    case Begin(pid, news, files, _, _) =>
      && pid !in w.uploads && |news| == |files|
      && Distinct(KeysOf(news)) && Distinct(IdsOf(news))
      && forall i :: 0 <= i < |news| ==>
        Fresh(w, news[i].key) && news[i].id !in w.used && Describes(f, news[i].contentType, news[i].size, news[i].sha, files[i])
    case BeginRotation(pid, r, updated, _, _) =>
      && pid !in w.uploads && Fresh(w, updated.key) && Legal(r.degrees)
      && r.original.key in w.content
      && r.original.size == f.size(w.content[r.original.key]) && r.original.sha == f.hash(w.content[r.original.key])
      && f.rotate(w.content[r.original.key], r.degrees).Some?
      && Describes(f, updated.contentType, updated.size, updated.sha, f.rotate(w.content[r.original.key], r.degrees).value)
    case Put(pid) => pid in w.uploads && w.uploads[pid].done < |w.uploads[pid].news| && |w.uploads[pid].files| == |w.uploads[pid].news|
    case Crash(pid) => pid in w.uploads
  }

  /** The request is over and its new photos are on record. */
  function Attach<B>(w: World<B>, pid: nat, db: Db): World<B> {
    w.(db := db, uploads := w.uploads - {pid},
      origins := map p | p in db.photos && (p in w.origins || db.photos[p].key in w.content) ::
        if p in w.origins then w.origins[p] else Origin(w.content[db.photos[p].key], []))
  }

  function Remove<B>(w: World<B>, parent: Parent, db: Db): World<B> {
    w.(db := db, detached := w.detached + KeysUnder(w.db, parent),
      origins := map p | p in w.origins && p in db.photos :: w.origins[p])
  }

  function Pop<B>(w: World<B>, wid: nat): World<B>
    requires Holds(w, wid)
  {
    w.(workers := w.workers[wid := Worker(w.workers[wid].keys[1..], false)])
  }

  function Reserve<B>(w: World<B>, keys: seq<Key>, expires: int): Db {
    match ReserveUploads(w.db, keys, expires)
    case Ok(db) => db
    case Err(_) => w.db
  }

  /** The file of each new key. */
  function Contents<B>(news: seq<NewPhoto>, files: seq<B>): map<Key, B> {
    var keys := KeysOf(news);
    map k | k in keys && IndexOf(keys, k) < |files| :: files[IndexOf(keys, k)]
  }

  lemma ContentsFiles<B>(news: seq<NewPhoto>, files: seq<B>)
    requires |news| == |files| && Distinct(KeysOf(news))
    ensures Contents(news, files).Keys == SetOf(KeysOf(news))
    ensures forall i :: 0 <= i < |news| ==>
      news[i].key in Contents(news, files) && Contents(news, files)[news[i].key] == files[i]
  {
    var keys := KeysOf(news);
    forall i | 0 <= i < |news| ensures keys[i] in keys && IndexOf(keys, keys[i]) == i {
      assert keys[IndexOf(keys, keys[i])] == keys[i];
    }
  }

  /** New keys overwrite no known file. */
  lemma ContentsAdded<B>(content: map<Key, B>, news: seq<NewPhoto>, files: seq<B>)
    requires |news| == |files| && Distinct(KeysOf(news)) && forall i :: 0 <= i < |news| ==> news[i].key !in content
    ensures var r := content + Contents(news, files);
      && r.Keys == content.Keys + SetOf(KeysOf(news))
      && (forall k :: k in content ==> r[k] == content[k])
      && (forall i :: 0 <= i < |news| ==> news[i].key in r && r[news[i].key] == files[i])
  {
    ContentsFiles(news, files);
    forall k | k in content ensures k !in SetOf(KeysOf(news)) {
      assert forall i :: 0 <= i < |news| ==> KeysOf(news)[i] != k;
    }
  }

  /** A request has chosen its keys and asked for their reservation. */
  function Begun<B>(w: World<B>, pid: nat, news: seq<NewPhoto>, files: seq<B>, expires: int, alive: bool): World<B> {
    w.(db := Reserve(w, KeysOf(news), expires),
      content := w.content + Contents(news, files),
      used := w.used + SetOf(IdsOf(news)),
      uploads := w.uploads[pid := Upload(news, files, 0, alive, None)])
  }

  function RequestNext<B, T>(f: Files<B, T>, w: World<B>, s: RequestStep<B>): World<B>
    requires RequestEnabled(f, w, s)
  {
    match s
    case Begin(pid, news, files, expires, alive) => Begun(w, pid, news, files, expires, alive)
    case BeginRotation(pid, r, updated, expires, alive) =>
      var file := f.rotate(w.content[r.original.key], r.degrees).value;
      w.(db := Reserve(w, [updated.key], expires),
        content := w.content[updated.key := file],
        uploads := w.uploads[pid := Upload([updated], [file], 0, alive, Some(r))])
    case Put(pid) =>
      var u := w.uploads[pid];
      w.(store := w.store[u.news[u.done].key := u.files[u.done]], uploads := w.uploads[pid := u.(done := u.done + 1)])
    case Crash(pid) => w.(uploads := w.uploads[pid := w.uploads[pid].(alive := false)])
  }

  function Committed<B>(w: World<B>, s: CommitStep): Result<Db>
    requires s.pid in w.uploads
  {
    match s
    case CommitBook(pid, id, slot) => Create(w.db, id, slot, w.uploads[pid].news, w.clock)
    case CommitAppend(pid, id, maxPhotos) => AppendPhotos(w.db, id, w.uploads[pid].news, maxPhotos, w.clock)
    case CommitMessage(pid, id, row) => CreateMessage(w.db, id, row, w.uploads[pid].news, w.clock)
  }

  /** The service has let a message pass only if it has text or photos. */
  predicate CommitEnabled<B>(w: World<B>, s: CommitStep) {
    && Ready(w, s.pid, false) && Committed(w, s).Ok?
    && (s.CommitMessage? && Blank(s.row.text) ==> w.uploads[s.pid].news != [])
  }

  function CommitNext<B>(w: World<B>, s: CommitStep): World<B>
    requires CommitEnabled(w, s)
  {
    Attach(w, s.pid, Committed(w, s).value)
  }

  function ParentOf(s: CommitStep): Parent {
    if s.CommitMessage? then Parent(Message, s.id) else Parent(Logbook, s.id)
  }

  function OffsetOf<B>(w: World<B>, s: CommitStep): nat {
    if s.CommitAppend? then |PhotosOf(w.db, ParentOf(s))| else 0
  }

  /** Whatever the transaction, the photos of the request are attached to its parent, and
      no other record changes. */
  lemma CommitAttaches<B>(w: World<B>, s: CommitStep)
    requires CommitEnabled(w, s)
    ensures var db := Committed(w, s).value;
      && Attaches(w.db, db, ParentOf(s), w.uploads[s.pid].news, OffsetOf(w, s), w.clock)
      && db.books == (if s.CommitBook? then w.db.books[s.id := s.slot] else w.db.books)
      && db.messages == (if s.CommitMessage? then w.db.messages[s.id := s.row] else w.db.messages)
  {
    var news := w.uploads[s.pid].news;
    match s
    case CommitBook(pid, id, slot) =>
      CreateAttaches(w.db, id, slot, news, w.clock);
      InsertPhotosAttaches(w.db.(books := w.db.books[id := slot]), ParentOf(s), news, 0, w.clock);
    case CommitAppend(pid, id, maxPhotos) =>
      InsertPhotosAttaches(w.db, ParentOf(s), news, OffsetOf(w, s), w.clock);
    case CommitMessage(pid, id, row) =>
      CreateMessageAttaches(w.db, id, row, news, w.clock);
      if news != [] {
        InsertPhotosAttaches(w.db.(messages := w.db.messages[id := row]), ParentOf(s), news, 0, w.clock);
      }
  }

  function Swapped<B>(w: World<B>, s: SwapStep): Result<Db>
    requires Ready(w, s.pid, true)
  {
    var u := w.uploads[s.pid];
    var r := u.rotation.value;
    ReplaceRotatedPhoto(w.db, s.user, s.admin, s.machine, r.photo, r.original, u.news[0], r.degrees, w.clock)
  }

  predicate SwapEnabled<B>(w: World<B>, s: SwapStep) {
    Ready(w, s.pid, true) && Swapped(w, s).Ok?
  }

  function SwapNext<B>(w: World<B>, s: SwapStep): World<B>
    requires SwapEnabled(w, s)
  {
    var r := w.uploads[s.pid].rotation.value;
    w.(db := Swapped(w, s).value, uploads := w.uploads - {s.pid},
      detached := w.detached + {r.original.key},
      commits := w.commits + [Commit(r.photo, r.original.key, w.uploads[s.pid].news[0].key, r.degrees)],
      origins := if r.photo in w.origins
        then w.origins[r.photo := w.origins[r.photo].(angles := w.origins[r.photo].angles + [r.degrees])] else w.origins)
  }

  lemma SwapReplaces<B>(w: World<B>, s: SwapStep)
    requires SwapEnabled(w, s)
    ensures var u := w.uploads[s.pid]; var r := u.rotation.value; var db := Swapped(w, s).value;
      && Replaces(w.db, db, r.photo, r.original, u.news[0], r.degrees, w.clock)
      && db.books == w.db.books && db.messages == w.db.messages
  {
    var u := w.uploads[s.pid];
    var r := u.rotation.value;
    RotationReplaces(w.db, s.user, s.admin, s.machine, r.photo, r.original, u.news[0], r.degrees, w.clock);
  }

  function Removed<B>(w: World<B>, s: RemovalStep): Result<Db> {
    match s
    case RemoveBook(id) => Delete(w.db, id, w.clock)
    case RemoveMessage(machine, id, user) => DeleteMessage(w.db, machine, id, user, w.clock)
  }

  function RemovedParent(s: RemovalStep): Parent {
    if s.RemoveBook? then Parent(Logbook, s.id) else Parent(Message, s.id)
  }

  predicate RemovalEnabled<B>(w: World<B>, s: RemovalStep) {
    Removed(w, s).Ok?
  }

  function RemovalNext<B>(w: World<B>, s: RemovalStep): World<B>
    requires RemovalEnabled(w, s)
  {
    Remove(w, RemovedParent(s), Removed(w, s).value)
  }

  lemma RemovalDetaches<B>(w: World<B>, s: RemovalStep)
    requires RemovalEnabled(w, s)
    ensures var db := Removed(w, s).value;
      && Detaches(w.db, db, RemovedParent(s), w.clock)
      && db.books == (if s.RemoveBook? then w.db.books - {s.id} else w.db.books)
      && db.messages == (if s.RemoveMessage? then w.db.messages - {s.id} else w.db.messages)
  {
    match s
    case RemoveBook(id) => DeleteDetaches(w.db, id, w.clock);
    case RemoveMessage(machine, id, user) => DeleteMessageDetaches(w.db, machine, id, user, w.clock);
  }

  predicate WorkerEnabled<B>(w: World<B>, s: WorkerStep) {
    match s
    case ClaimRows(wid, keys) => wid !in w.workers && forall k <- keys :: Due(w.db, k, w.clock)
    case Erase(wid, _) => Holds(w, wid)
    case CompleteRow(wid) => Holds(w, wid) && w.workers[wid].erased
    case Skip(wid) => Holds(w, wid)
    case Lose(wid) => wid in w.workers
  }

  function WorkerNext<B>(w: World<B>, s: WorkerStep): World<B>
    requires WorkerEnabled(w, s)
  {
    match s
    case ClaimRows(wid, keys) =>
      w.(db := Claim(w.db, SetOf(keys)), workers := w.workers[wid := Worker(keys, false)], dead := w.dead + SetOf(keys))
    case Erase(wid, reported) =>
      var worker := w.workers[wid];
      w.(store := w.store - {worker.keys[0]}, workers := w.workers[wid := worker.(erased := reported || worker.erased)])
    case CompleteRow(wid) => Pop(w.(db := CompleteDeletion(w.db, w.workers[wid].keys[0])), wid)
    case Skip(wid) => Pop(w, wid)
    case Lose(wid) => w.(workers := w.workers - {wid})
  }

  predicate OtherEnabled<B>(w: World<B>, s: OtherStep) {
    match s
    case Tick(_) => true
    case TextMessage(id, row) => CreateMessage(w.db, id, row, [], w.clock).Ok? && !Blank(row.text)
    case EditText(machine, id, user, text) => EditMessage(w.db, machine, id, user, text, w.clock).Ok?
    case AddMarker(m, photo, at) => m !in w.db.markers && photo in w.db.photos && at.InUnitSquare()
    case RemoveMarker(m) => true
  }

  function OtherNext<B>(w: World<B>, s: OtherStep): World<B>
    requires OtherEnabled(w, s)
  {
    match s
    case Tick(elapsed) => w.(clock := w.clock + elapsed)
    case TextMessage(id, row) => w.(db := CreateMessage(w.db, id, row, [], w.clock).value)
    case EditText(machine, id, user, text) => w.(db := EditMessage(w.db, machine, id, user, text, w.clock).value)
    case AddMarker(m, photo, at) =>
      w.(db := w.db.(markers := w.db.markers[m := Marker(photo, at)]),
        marks := w.marks[m := Mark(at, if photo in w.origins then |w.origins[photo].angles| else 0)])
    case RemoveMarker(m) => w.(db := w.db.(markers := w.db.markers - {m}), marks := w.marks - {m})
  }

  // ----- steps and runs

  /** A request changes no record before it commits. */
  lemma RequestRows<B, T>(f: Files<B, T>, w: World<B>, s: RequestStep<B>)
    requires RequestEnabled(f, w, s)
    ensures var x := RequestNext(f, w, s); x.db == w.db.(deletions := x.db.deletions)
  {
  }

  /** A worker changes no record at all. */
  lemma WorkerRows<B>(w: World<B>, s: WorkerStep)
    requires WorkerEnabled(w, s)
    ensures var x := WorkerNext(w, s); x.db == w.db.(deletions := x.db.deletions)
  {
  }

  ghost predicate Enabled<B, T>(f: Files<B, T>, w: World<B>, s: Step<B>) {
    match s
    case OfRequest(r) => RequestEnabled(f, w, r)
    case OfCommit(c) => CommitEnabled(w, c)
    case OfSwap(t) => SwapEnabled(w, t)
    case OfRemoval(m) => RemovalEnabled(w, m)
    case OfWorker(k) => WorkerEnabled(w, k)
    case Other(o) => OtherEnabled(w, o)
  }

  function Next<B, T>(f: Files<B, T>, w: World<B>, s: Step<B>): World<B>
    requires Enabled(f, w, s)
  {
    match s
    case OfRequest(r) => RequestNext(f, w, r)
    case OfCommit(c) => CommitNext(w, c)
    case OfSwap(t) => SwapNext(w, t)
    case OfRemoval(m) => RemovalNext(w, m)
    case OfWorker(k) => WorkerNext(w, k)
    case Other(o) => OtherNext(w, o)
  }

  // what each kind of step leaves alone

  lemma RequestFrame<B, T>(f: Files<B, T>, w: World<B>, s: RequestStep<B>)
    requires RequestEnabled(f, w, s)
    ensures var x := RequestNext(f, w, s); x.workers == w.workers && x.commits == w.commits && x.detached == w.detached
  {
  }

  lemma CommitFrame<B>(w: World<B>, s: CommitStep)
    requires CommitEnabled(w, s)
    ensures var x := CommitNext(w, s);
      x.store == w.store && x.workers == w.workers && x.commits == w.commits && x.detached == w.detached
  {
  }

  lemma SwapFrame<B>(w: World<B>, s: SwapStep)
    requires SwapEnabled(w, s)
    ensures var x := SwapNext(w, s); x.store == w.store && x.workers == w.workers
  {
  }

  lemma RemovalFrame<B>(w: World<B>, s: RemovalStep)
    requires RemovalEnabled(w, s)
    ensures var x := RemovalNext(w, s);
      x.store == w.store && x.workers == w.workers && x.commits == w.commits && w.detached <= x.detached
  {
  }

  lemma WorkerFrame<B>(w: World<B>, s: WorkerStep)
    requires WorkerEnabled(w, s)
    ensures var x := WorkerNext(w, s); x.commits == w.commits && x.detached == w.detached
  {
  }

  lemma OtherFrame<B>(w: World<B>, s: OtherStep)
    requires OtherEnabled(w, s)
    ensures var x := OtherNext(w, s);
      x.store == w.store && x.workers == w.workers && x.commits == w.commits && x.detached == w.detached
  {
  }

  function Empty<B>(machines: set<int>, shifts: set<int>, clock: int): World<B> {
    World(Db(map[], map[], map[], map[], map[], machines, shifts), clock, map[], map[], map[],
      map[], {}, {}, {}, [], map[], map[])
  }

  /** A run: every step is enabled where it is taken. */
  ghost predicate Runs<B, T>(f: Files<B, T>, worlds: seq<World<B>>, steps: seq<Step<B>>) {
    && |worlds| == |steps| + 1
    && (exists machines, shifts, clock :: worlds[0] == Empty(machines, shifts, clock))
    && forall i :: 0 <= i < |steps| ==> Enabled(f, worlds[i], steps[i]) && worlds[i + 1] == Next(f, worlds[i], steps[i])
  }
}
