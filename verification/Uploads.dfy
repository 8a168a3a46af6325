/** What the service checks of an upload, and the keys that it chooses. */
module Uploads {
  import opened Common
  import opened Bytes
  import opened Containers
  import opened Database
  import R = ImageRotation

  datatype Checked = Checked(contentType: string, extension: string, size: int, sha: string)

  function TypeOf(format: Format): string {
    match format
    case Jpeg => "image/jpeg"
    case Png => "image/png"
    case Webp => "image/webp"
  }

  function ExtensionOf(format: Format): string {
    match format
    case Jpeg => ".jpg"
    case Png => ".png"
    case Webp => ".webp"
  }

  /** The photos that an upload may bring. */
  ghost predicate Acceptable<T>(lib: R.Library<T>, limits: R.Limits, declared: int, data: Data) {
    && 0 < declared == |data| <= limits.photoBytes
    && R.Recognized(lib, data)
    && lib.header(data).value.width > 0 && lib.header(data).value.height > 0
    && lib.header(data).value.width * lib.header(data).value.height <= limits.imagePixels
    && lib.decode(data).Some?
  }

  /** `validatePhoto`, on the bytes that the upload delivered. */
  method ValidatePhoto<T>(lib: R.Library<T>, limits: R.Limits, declared: int, data: Data, sha: Data -> string)
    returns (r: Result<Checked>)
    ensures r.Ok? <==> Acceptable(lib, limits, declared, data)
    ensures r.Ok? <==>
      && 0 < declared == |data| <= limits.photoBytes && lib.header(data).Some? && lib.decode(data).Some?
      && var config := lib.header(data).value;
      config.format.Some? && config.width > 0 && config.height > 0 && config.width * config.height <= limits.imagePixels
    ensures r.Ok? ==> r.value == Checked(TypeOf(R.FormatOf(lib, data)), ExtensionOf(R.FormatOf(lib, data)), |data|, sha(data))
    ensures r.Err? ==> r.error == Validation
  {
    if declared <= 0 || declared > limits.photoBytes {
      return Err(Validation);
    }
    if |data| != declared || |data| > limits.photoBytes {
      return Err(Validation);
    }
    var config := lib.header(data);
    if config.None? || config.value.format.None? {
      return Err(Validation);
    }
    var large := R.TooLarge(config.value, limits);
    if large || lib.decode(data).None? {
      return Err(Validation);
    }
    var format := config.value.format.value;
    return Ok(Checked(TypeOf(format), ExtensionOf(format), |data|, sha(data)));
  }

  /** Every photo that rotation takes on could have been uploaded; an upload may bring
      more: animations, EXIF chunks and broken EXIF segments. */
  lemma RotatableIsAcceptable<T>(lib: R.Library<T>, limits: R.Limits, data: Data)
    requires data != []
    ensures R.Rotatable(lib, limits, data) <==>
      Acceptable(lib, limits, |data|, data)
      && R.OrientationOf(R.FormatOf(lib, data), data).Ok? && Accepted(data, R.FormatOf(lib, data))
  {
  }

  // ----- keys

  function Folder(kind: Kind): string {
    match kind
    case Logbook => "logbooks/"
    case Message => "messages/"
  }

  function KeyOf(parent: Parent, id: Id, extension: string): Key {
    Folder(parent.kind) + parent.id + "/" + id + extension
  }

  /** UUIDs are written in 36 characters. */
  predicate Uuid(id: Id) {
    |id| == 36
  }

  /** A key tells its parent and its UUID: distinct UUIDs have distinct keys, under
      whatever parents and with whatever extensions. */
  lemma KeysTellApart(p: Parent, i: Id, e: string, q: Parent, j: Id, f: string)
    requires Uuid(p.id) && Uuid(i) && Uuid(q.id) && Uuid(j)
    requires KeyOf(p, i, e) == KeyOf(q, j, f)
    ensures p == q && i == j && e == f
  {
    KeyParts(p, i, e);
    KeyParts(q, j, f);
    assert KeyOf(p, i, e)[0] == Folder(p.kind)[0] && KeyOf(q, j, f)[0] == Folder(q.kind)[0];
  }

  lemma KeyParts(p: Parent, i: Id, e: string)
    requires Uuid(p.id) && Uuid(i)
    ensures var k := KeyOf(p, i, e);
      |k| == 82 + |e| && k[9..45] == p.id && k[46..82] == i && k[82..] == e
  {
  }

  /** The declared size of an upload, and the bytes that it delivers unless reading fails. */
  datatype Upload = Upload(declared: int, data: Result<Data>)

  /** What becomes of one upload: reading may fail, and the checks may refuse it. */
  ghost predicate Passes<T>(lib: R.Library<T>, limits: R.Limits, u: Upload) {
    u.data.Ok? && Acceptable(lib, limits, u.declared, u.data.value)
  }

  ghost predicate AllPass<T>(lib: R.Library<T>, limits: R.Limits, uploads: seq<Upload>) {
    forall u <- uploads :: Passes(lib, limits, u)
  }

  ghost function Prepared<T>(lib: R.Library<T>, parent: Parent, user: Id, sha: Data -> string, data: Data, id: Id): NewPhoto
    requires R.Recognized(lib, data)
  {
    var format := R.FormatOf(lib, data);
    NewPhoto(id, KeyOf(parent, id, ExtensionOf(format)), TypeOf(format), |data|, sha(data), user)
  }

  /** What is written down of an upload: its format, its size and hash, who brought it, and
      the key `logbooks/` or `messages/`, the parent, the UUID and the extension. */
  lemma PreparedFields<T>(lib: R.Library<T>, parent: Parent, user: Id, sha: Data -> string, data: Data, id: Id)
    requires R.Recognized(lib, data)
    ensures var p, format := Prepared(lib, parent, user, sha, data, id), lib.header(data).value.format.value;
      && p.id == id && p.uploader == user && p.size == |data| && p.sha == sha(data)
      && p.contentType == (if format.Jpeg? then "image/jpeg" else if format.Png? then "image/png" else "image/webp")
      && p.key == (if parent.kind.Logbook? then "logbooks/" else "messages/") + parent.id + "/" + id
        + (if format.Jpeg? then ".jpg" else if format.Png? then ".png" else ".webp")
  {
  }

  /** What reading and checking one upload gives. */
  method CheckUpload<T>(lib: R.Library<T>, limits: R.Limits, u: Upload, sha: Data -> string) returns (r: Result<Checked>)
    ensures r.Ok? <==> Passes(lib, limits, u)
    ensures r.Ok? ==>
      var format := R.FormatOf(lib, u.data.value);
      r.value == Checked(TypeOf(format), ExtensionOf(format), |u.data.value|, sha(u.data.value))
    ensures r.Err? ==> r.error == Validation || (u.data.Err? && r.error == u.data.error)
  {
    if u.declared <= 0 || u.declared > limits.photoBytes {
      return Err(Validation);
    }
    if u.data.Err? {
      return Err(u.data.error);
    }
    r := ValidatePhoto(lib, limits, u.declared, u.data.value, sha);
  }

  /** `preparePhotos`: unless it is cancelled, reads and checks the uploads in order up to
      the first that fails, and names each photo by its own UUID. */
  method PreparePhotos<T>(lib: R.Library<T>, limits: R.Limits, parent: Parent, user: Id, uploads: seq<Upload>, ids: seq<Id>,
                          sha: Data -> string, cancelled: nat -> bool) returns (r: Result<seq<NewPhoto>>)
    requires |ids| == |uploads|
    ensures r.Ok? <==> AllPass(lib, limits, uploads) && forall i :: 0 <= i < |uploads| ==> !cancelled(i)
    ensures r.Ok? ==> |r.value| == |uploads| && forall i :: 0 <= i < |uploads| ==>
      Passes(lib, limits, uploads[i]) && r.value[i] == Prepared(lib, parent, user, sha, uploads[i].data.value, ids[i])
  {
    var photos := [];
    for i := 0 to |uploads|
      invariant |photos| == i
      invariant forall j :: 0 <= j < i ==> !cancelled(j) && Passes(lib, limits, uploads[j])
      invariant forall j :: 0 <= j < i ==> photos[j] == Prepared(lib, parent, user, sha, uploads[j].data.value, ids[j])
    {
      if cancelled(i) {
        return Err(Cancelled);
      }
      var checked := CheckUpload(lib, limits, uploads[i], sha);
      if checked.Err? {
        assert uploads[i] in uploads;
        return Err(checked.error);
      }
      var c := checked.value;
      photos := photos + [NewPhoto(ids[i], KeyOf(parent, ids[i], c.extension), c.contentType, c.size, c.sha, user)];
    }
    return Ok(photos);
  }

  /** So a prepared batch of different UUIDs can be reserved unless a key is known. */
  lemma PreparedKeysDiffer<T>(lib: R.Library<T>, limits: R.Limits, parent: Parent, user: Id, uploads: seq<Upload>, ids: seq<Id>,
                              sha: Data -> string, news: seq<NewPhoto>)
    requires |ids| == |uploads| == |news| && Uuid(parent.id) && Distinct(ids) && AllPass(lib, limits, uploads)
    requires forall i :: 0 <= i < |ids| ==>
      Uuid(ids[i]) && Passes(lib, limits, uploads[i]) && news[i] == Prepared(lib, parent, user, sha, uploads[i].data.value, ids[i])
    ensures Distinct(KeysOf(news)) && Distinct(IdsOf(news))
  {
    forall i, j | 0 <= i < j < |news| ensures news[i].key != news[j].key && news[i].id != news[j].id {
      if news[i].key == news[j].key {
        KeysTellApart(parent, ids[i], ExtensionOf(R.FormatOf(lib, uploads[i].data.value)),
          parent, ids[j], ExtensionOf(R.FormatOf(lib, uploads[j].data.value)));
      }
    }
  }
}
