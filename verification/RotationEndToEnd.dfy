/** Clicks in the browser, bytes in the store: the two halves of photo rotation joined. */
module RotationEndToEnd {
  import opened Common
  import opened Turns
  import opened Pixels
  import opened Markers
  import opened Bytes
  import opened Containers
  import opened Sequences
  import Formats
  import R = ImageRotation
  import W = RotationWorld

  /** The photos that rotation takes on and encodes without loss: PNG and WebP. */
  ghost predicate Takes<T>(lib: R.Library<T>, limits: R.Limits, b: Data) {
    R.Coherent(lib) && R.Rotatable(lib, limits, b) && !R.FormatOf(lib, b).Jpeg?
  }

  ghost function Format<T>(lib: R.Library<T>, limits: R.Limits): iset<Data> {
    iset b | Takes(lib, limits, b)
  }

  function Nothing<T>(): (r: Image<T>)
    ensures r.Valid()
  {
    Image(0, 0, [])
  }

  /** What the browser shows of a photo; of any other file, nothing. */
  ghost function View<T>(lib: R.Library<T>, limits: R.Limits, b: Data): (r: Image<T>)
    ensures r.Valid()
  {
    if R.Coherent(lib) && R.Rotatable(lib, limits, b) then R.Displayed(lib, limits, b) else Nothing()
  }

  /** The file that a rotation writes, unless the photo is refused, the encoder fails or
      its file is too large. JPEG photos are rotated too. */
  ghost function RotatedFile<T>(lib: R.Library<T>, limits: R.Limits, b: Data, degrees: int): Option<Data> {
    if R.Coherent(lib) && R.Rotatable(lib, limits, b) && Legal(degrees) then
      var turned := R.Turned(lib, limits, b, degrees);
      if turned.Some? && |turned.value| <= limits.photoBytes then turned else None
    else None
  }

  ghost function Pipeline<T>(lib: R.Library<T>, limits: R.Limits, hash: Data -> string): W.Codec<Data, T, string> {
    W.Codec(b => View(lib, limits, b), (b, degrees) => RotatedFile(lib, limits, b, degrees), hash)
  }

  /** The pipeline writes a file exactly when the server's rotation succeeds with it. */
  lemma PipelineIsRotation<T>(lib: R.Library<T>, limits: R.Limits, hash: Data -> string, b: Data, degrees: int, r: Data)
    requires R.Coherent(lib)
    ensures Pipeline(lib, limits, hash).rotate(b, degrees) == Some(r) <==>
      exists contentType, extension :: R.IsRotation(lib, limits, b, degrees, R.Encoded(r, contentType, extension))
  {
    if RotatedFile(lib, limits, b, degrees) == Some(r) {
      if R.FormatOf(lib, b).Jpeg? {
        assert R.IsRotation(lib, limits, b, degrees, R.Encoded(r, "image/jpeg", ".jpg"));
      } else {
        assert R.IsRotation(lib, limits, b, degrees, R.Encoded(r, "image/png", ".png"));
      }
    }
  }

  lemma PipelineStep<T(!new)>(lib: R.Library<T>, limits: R.Limits, hash: Data -> string, b: Data, degrees: int)
    requires R.PngLossless(lib) && Takes(lib, limits, b) && Legal(degrees)
    ensures var c := Pipeline(lib, limits, hash); Formats.TurnsTrue(c.view, c.rotate, Format(lib, limits), b, degrees)
  {
    var rotated := RotatedFile(lib, limits, b, degrees);
    if rotated.Some? {
      R.RotatedShowsTheTurn(lib, limits, b, degrees, R.Encoded(rotated.value, "image/png", ".png"));
    }
  }

  /** The pipeline is lossless on PNG and WebP files, for every library whose PNG encoder
      is. */
  lemma PipelineIsLossless<T(!new)>(lib: R.Library<T>, limits: R.Limits, hash: Data -> string)
    requires R.PngLossless(lib)
    ensures W.Lossless(Pipeline(lib, limits, hash), Format(lib, limits))
  {
    var c, format := Pipeline(lib, limits, hash), Format(lib, limits);
    forall b, degrees | b in format && Legal(degrees)
      ensures Formats.TurnsTrue(c.view, c.rotate, format, b, degrees)
    {
      PipelineStep(lib, limits, hash, b, degrees);
    }
  }

  /** Any photo, any clicks, any failures and retries without a lost answer: when the queue
      is at rest without an error, the markers are where every click in turn would have
      moved them, and the stored bytes of a PNG or WebP photo decode to the photo with
      every click applied in turn. */
  lemma ClicksReachThePixels<T(!new)>(lib: R.Library<T>, limits: R.Limits, hash: Data -> string,
                                      first: W.Server<Data>, events: seq<W.Event>)
    requires W.QuarterClicks(events) && W.Save(W.Lost) !in events
    requires var q := W.Run(Pipeline(lib, limits, hash), first, events).queue; q.flight.None? && !q.timer && !q.failed
    ensures AllQuarters(W.Clicks(events))
    ensures var markers := W.Run(Pipeline(lib, limits, hash), first, events).server.markers;
      && |markers| == |first.markers|
      && forall i :: 0 <= i < |markers| ==> markers[i] == PointOneByOne(first.markers[i], W.Clicks(events))
    ensures R.PngLossless(lib) && Takes(lib, limits, first.file) ==>
      View(lib, limits, W.Run(Pipeline(lib, limits, hash), first, events).server.file)
        == OneByOne(R.Displayed(lib, limits, first.file), W.Clicks(events))
  {
    if R.PngLossless(lib) {
      PipelineIsLossless(lib, limits, hash);
    }
    W.AtRestNothingIsMissing(Pipeline(lib, limits, hash), Format(lib, limits), first, events);
  }
}
