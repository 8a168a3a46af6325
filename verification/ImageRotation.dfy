/** From the bytes of a stored photo to the bytes of the rotated one. */
module ImageRotation {
  import opened Common
  import opened Turns
  import opened Pixels
  import opened Bytes
  import opened Containers
  import opened JpegScan

  /** What a decoder tells of a file before it reads the pixels. */
  datatype Header = Header(format: Option<Format>, width: int, height: int)

  /** The image libraries: the colours are those of the output buffer. */
  datatype Library<!T> = Library(
    header: Data -> Option<Header>, decode: Data -> Option<Image<T>>,
    jpeg: Image<T> -> Option<Data>, png: Image<T> -> Option<Data>)

  datatype Limits = Limits(photoBytes: nat, imagePixels: nat)

  datatype Encoded = Encoded(data: Data, contentType: string, extension: string)

  /** The decoder keeps the size that the header promised. */
  ghost predicate Coherent<T>(lib: Library<T>) {
    forall b: Data :: lib.decode(b).Some? ==>
      && lib.header(b).Some? && lib.decode(b).value.Valid()
      && lib.decode(b).value.width == lib.header(b).value.width
      && lib.decode(b).value.height == lib.header(b).value.height
  }

  /** A PNG file keeps every colour, and the encoder writes neither animation nor EXIF. */
  ghost predicate PngLossless<T(!new)>(lib: Library<T>) {
    forall image: Image<T> :: image.Valid() && image.width > 0 && image.height > 0 && lib.png(image).Some? ==>
      var b := lib.png(image).value;
      lib.header(b) == Some(Header(Some(Png), image.width, image.height)) && lib.decode(b) == Some(image) && Accepted(b, Png)
  }

  function OrientationOf(format: Format, data: Data): (r: Result<int>)
    ensures r.Ok? ==> 1 <= r.value <= 8
  {
    if format.Jpeg? && |data| >= 2 then
      ScanInRange(data[2..]);
      ScanSegments(data[2..])
    else Ok(1)
  }

  ghost predicate Recognized<T>(lib: Library<T>, data: Data) {
    lib.header(data).Some? && lib.header(data).value.format.Some?
  }

  ghost function FormatOf<T>(lib: Library<T>, data: Data): Format
    requires Recognized(lib, data)
  {
    lib.header(data).value.format.value
  }

  /** The photos that a rotation takes on. */
  ghost predicate Rotatable<T>(lib: Library<T>, limits: Limits, data: Data) {
    && |data| <= limits.photoBytes
    && Recognized(lib, data)
    && lib.header(data).value.width > 0 && lib.header(data).value.height > 0
    && lib.header(data).value.width * lib.header(data).value.height <= limits.imagePixels
    && OrientationOf(FormatOf(lib, data), data).Ok?
    && Accepted(data, FormatOf(lib, data))
    && lib.decode(data).Some?
  }

  /** The photo as a browser shows it. */
  ghost function Displayed<T>(lib: Library<T>, limits: Limits, data: Data): (r: Image<T>)
    requires Coherent(lib) && Rotatable(lib, limits, data)
    ensures r.Valid()
  {
    Upright(lib.decode(data).value, OrientationOf(FormatOf(lib, data), data).value)
  }

  function Encode<T>(lib: Library<T>, format: Format, image: Image<T>): Option<Data> {
    if format.Jpeg? then lib.jpeg(image) else lib.png(image)
  }

  /** The file that a rotation by `degrees` should produce. */
  ghost function Turned<T>(lib: Library<T>, limits: Limits, data: Data, degrees: int): Option<Data>
    requires Coherent(lib) && Rotatable(lib, limits, data) && Legal(degrees)
  {
    Encode(lib, FormatOf(lib, data), TurnBy(Displayed(lib, limits, data), degrees))
  }

  /** A successful rotation. */
  ghost predicate IsRotation<T>(lib: Library<T>, limits: Limits, data: Data, degrees: int, r: Encoded) {
    && Coherent(lib) && Legal(degrees) && Rotatable(lib, limits, data)
    && Turned(lib, limits, data, degrees) == Some(r.data)
    && |r.data| <= limits.photoBytes
    && (r.contentType, r.extension)
    == if FormatOf(lib, data).Jpeg? then ("image/jpeg", ".jpg") else ("image/png", ".png")
  }

  /** The quotient in the source bounds the number of pixels and cannot overflow. */
  lemma PixelBound(w: int, h: int, limit: nat)
    requires w > 0 && h > 0
    ensures w > limit / h <==> w * h > limit
  {
    var q := limit / h;
    assert q * h <= limit < (q + 1) * h;
    if w > q {
      assert w * h >= (q + 1) * h;
    } else {
      assert w * h <= q * h;
    }
  }

  /** The size check of `rotatePixels` and `validatePhoto`. */
  method TooLarge(header: Header, limits: Limits) returns (large: bool)
    ensures large <==> header.width <= 0 || header.height <= 0 || header.width * header.height > limits.imagePixels
  {
    if header.width > 0 && header.height > 0 {
      PixelBound(header.width, header.height, limits.imagePixels);
    }
    large := header.width <= 0 || header.height <= 0 || header.width > limits.imagePixels / header.height;
  }

  /** The checks in front of the decoder. */
  method Inspect<T>(lib: Library<T>, limits: Limits, data: Data) returns (r: Result<(Format, int)>)
    requires Coherent(lib)
    ensures r.Ok? && lib.decode(data).Some? <==> Rotatable(lib, limits, data)
    ensures r.Ok? ==> Recognized(lib, data) && r.value.0 == FormatOf(lib, data)
    ensures r.Ok? ==> OrientationOf(FormatOf(lib, data), data) == Result.Ok(r.value.1)
    ensures r.Err? ==> r.error == Validation
    ensures r.Ok? ==> 1 <= r.value.1 <= 8
  {
    if |data| > limits.photoBytes {
      return Err(Validation);
    }
    var config := lib.header(data);
    if config.None? || config.value.format.None? {
      return Err(Validation);
    }
    var large := TooLarge(config.value, limits);
    if large {
      return Err(Validation);
    }
    var format := config.value.format.value;
    var orientation := 1;
    if format == Jpeg {
      var scanned := JpegOrientation(data);
      if scanned.Err? {
        assert scanned == OrientationOf(format, data);
        return Err(Validation);
      }
      orientation := scanned.value;
    }
    var accepted := CheckRotationContainer(data, format);
    if !accepted {
      return Err(Validation);
    }
    return Ok((format, orientation));
  }

  /** `rotatePixels`: succeeds exactly on photos within the limits whose turned image
      fits them too, and then the file shows the displayed photo turned clockwise. */
  method RotateFile<T(0)>(lib: Library<T>, limits: Limits, data: Data, degrees: int) returns (r: Result<Encoded>)
    requires Coherent(lib) && Legal(degrees)
    ensures r.Ok? ==> IsRotation(lib, limits, data, degrees, r.value)
    ensures r.Err? ==> r.error == Validation || r.error == EncodingFailure
    ensures r.Err? && r.error == EncodingFailure <==> Rotatable(lib, limits, data) && Turned(lib, limits, data, degrees).None?
    ensures r.Err? && r.error == Validation <==>
      !Rotatable(lib, limits, data) || exists b :: Turned(lib, limits, data, degrees) == Some(b) && |b| > limits.photoBytes
  {
    var checked := Inspect(lib, limits, data);
    if checked.Err? {
      return Err(Validation);
    }
    var (format, orientation) := checked.value;
    var source := lib.decode(data);
    if source.None? {
      return Err(Validation);
    }
    var out := RotatePixels(source.value, orientation, degrees);
    var contentType, extension := "image/png", ".png";
    var encoded: Option<Data>;
    if format == Jpeg {
      contentType, extension := "image/jpeg", ".jpg";
      encoded := lib.jpeg(Buffered(out));
    } else {
      encoded := lib.png(Buffered(out));
    }
    assert encoded == Turned(lib, limits, data, degrees);
    if encoded.None? {
      return Err(EncodingFailure);
    }
    if |encoded.value| > limits.photoBytes {
      return Err(Validation);
    }
    return Ok(Encoded(encoded.value, contentType, extension));
  }

  /** The file of a rotation: a photo within the limits, of an accepted container, shown as
      the scanned orientation says if it is a JPEG, turned, and encoded as JPEG or as PNG. */
  lemma RotatedFile<T>(lib: Library<T>, limits: Limits, data: Data, degrees: int, r: Encoded)
    requires IsRotation(lib, limits, data, degrees, r)
    ensures |data| <= limits.photoBytes && |r.data| <= limits.photoBytes && lib.header(data).Some? && lib.decode(data).Some?
    ensures var config := lib.header(data).value;
      && config.format.Some? && Accepted(data, config.format.value)
      && config.width > 0 && config.height > 0 && config.width * config.height <= limits.imagePixels
      && (config.format.value.Jpeg? && |data| >= 2 ==> ScanSegments(data[2..]).Ok? && 1 <= ScanSegments(data[2..]).value <= 8)
    ensures degrees == 90 || degrees == -90 || degrees == 180
    ensures var image, format := lib.decode(data).value, lib.header(data).value.format.value;
      var orientation := if format.Jpeg? && |data| >= 2 then ScanSegments(data[2..]).value else 1;
      && image.Valid()
      && if format.Jpeg?
         then lib.jpeg(TurnBy(Upright(image, orientation), degrees)) == Some(r.data) && r == Encoded(r.data, "image/jpeg", ".jpg")
         else lib.png(TurnBy(Upright(image, orientation), degrees)) == Some(r.data) && r == Encoded(r.data, "image/png", ".png")
  {
    ScanInRange(if |data| >= 2 then data[2..] else []);
  }

  // ----- rotating again

  lemma {:induction false} TurnSize<T>(image: Image<T>, k: nat)
    requires image.Valid()
    ensures var r := Turn(image, k);
      (r.width, r.height) == if k % 2 == 0 then (image.width, image.height) else (image.height, image.width)
  {
    if k > 0 {
      TurnSize(image, k - 1);
    }
  }

  lemma PlainUpright<T>(image: Image<T>)
    requires image.Valid()
    ensures Upright(image, 1) == image
  {
    UprightIsUpright(image, 1);
    forall x, y | 0 <= x < image.width && 0 <= y < image.height
      ensures Upright(image, 1).At(x, y) == image.At(x, y)
    {
      OrientedIsDisplay(1, image.width, image.height, x, y);
    }
    SameImage(Upright(image, 1), image);
  }

  /** Turning keeps the number of pixels. */
  lemma SameArea<T>(lib: Library<T>, limits: Limits, data: Data, degrees: int)
    requires Coherent(lib) && Rotatable(lib, limits, data) && Legal(degrees) && !FormatOf(lib, data).Jpeg?
    ensures var image := TurnBy(Displayed(lib, limits, data), degrees);
      image.width > 0 && image.height > 0 && image.width * image.height <= limits.imagePixels
  {
    var shown, header := Displayed(lib, limits, data), lib.header(data).value;
    TurnSize(shown, Quarters(degrees));
    ShownSize(lib, limits, data);
    var image := TurnBy(shown, degrees);
    EitherWay(header.width, header.height, image.width, image.height, limits.imagePixels);
  }

  lemma ShownSize<T>(lib: Library<T>, limits: Limits, data: Data)
    requires Coherent(lib) && Rotatable(lib, limits, data) && !FormatOf(lib, data).Jpeg?
    ensures var shown, header := Displayed(lib, limits, data), lib.header(data).value;
      shown.width == header.width && shown.height == header.height
  {
  }

  lemma EitherWay(w: int, h: int, a: int, b: int, limit: int)
    requires w > 0 && h > 0 && w * h <= limit && ((a, b) == (w, h) || (a, b) == (h, w))
    ensures a > 0 && b > 0 && a * b <= limit
  {
    assert h * w == w * h;
  }

  /** A rotated file that is not JPEG shows the turned photo, and it can be rotated
      again: it passes every check that the first file passed. */
  lemma RotatedShowsTheTurn<T(!new)>(lib: Library<T>, limits: Limits, data: Data, degrees: int, r: Encoded)
    requires IsRotation(lib, limits, data, degrees, r) && PngLossless(lib) && !FormatOf(lib, data).Jpeg?
    ensures Rotatable(lib, limits, r.data) && FormatOf(lib, r.data) == Png
    ensures Displayed(lib, limits, r.data) == TurnBy(Displayed(lib, limits, data), degrees)
  {
    var shown := Displayed(lib, limits, data);
    var image := TurnBy(shown, degrees);
    SameArea(lib, limits, data, degrees);
    assert lib.png(image) == Some(r.data);
    PlainUpright(image);
  }

  /** A photo that rotation takes on, and what it shows. */
  ghost predicate Shows<T>(lib: Library<T>, limits: Limits, data: Data, image: Image<T>) {
    Coherent(lib) && Rotatable(lib, limits, data) && !FormatOf(lib, data).Jpeg? && Displayed(lib, limits, data) == image
  }

  lemma TurnedShows<T(!new)>(lib: Library<T>, limits: Limits, data: Data, image: Image<T>, a: int, r: Encoded)
    requires Shows(lib, limits, data, image) && IsRotation(lib, limits, data, a, r) && PngLossless(lib)
    ensures image.Valid() && Shows(lib, limits, r.data, TurnBy(image, a))
  {
    RotatedShowsTheTurn(lib, limits, data, a, r);
  }

  /** The file that a rotation writes depends on the picture alone. */
  lemma RotationWrites<T>(lib: Library<T>, limits: Limits, data: Data, image: Image<T>, degrees: int, r: Encoded)
    requires image.Valid() && Legal(degrees) && Shows(lib, limits, data, image) && IsRotation(lib, limits, data, degrees, r)
    ensures lib.png(TurnBy(image, degrees)) == Some(r.data) && r == Encoded(r.data, "image/png", ".png")
  {
  }

  lemma TurnsAdd<T>(image: Image<T>, a: int, b: int, c: int)
    requires image.Valid() && QuarterMultiple(a) && QuarterMultiple(b) && SameAngle(a + b, c)
    ensures QuarterMultiple(c) && TurnBy(TurnBy(image, a), b) == TurnBy(image, c)
  {
    TurnBySum(image, a, b);
    TurnBySame(image, a + b, c);
  }

  lemma WrittenTwice<T(!new)>(lib: Library<T>, limits: Limits, data: Data, image: Image<T>, a: int, first: Encoded,
                              b: int, second: Encoded)
    requires image.Valid() && Legal(a) && Legal(b) && PngLossless(lib)
    requires Shows(lib, limits, data, image) && IsRotation(lib, limits, data, a, first)
    requires IsRotation(lib, limits, first.data, b, second)
    ensures lib.png(TurnBy(TurnBy(image, a), b)) == Some(second.data) && second == Encoded(second.data, "image/png", ".png")
  {
    TurnedShows(lib, limits, data, image, a, first);
    RotationWrites(lib, limits, first.data, TurnBy(image, a), b, second);
  }

  lemma WrittenAsOne<T(!new)>(lib: Library<T>, limits: Limits, data: Data, image: Image<T>, a: int, first: Encoded,
                              b: int, second: Encoded, c: int)
    requires image.Valid() && Legal(a) && Legal(b) && SameAngle(a + b, c) && PngLossless(lib)
    requires Shows(lib, limits, data, image) && IsRotation(lib, limits, data, a, first)
    requires IsRotation(lib, limits, first.data, b, second)
    ensures QuarterMultiple(c) && lib.png(TurnBy(image, c)) == Some(second.data) && second == Encoded(second.data, "image/png", ".png")
  {
    WrittenTwice(lib, limits, data, image, a, first, b, second);
    TurnsAdd(image, a, b, c);
  }

  /** Two rotations in a row write the very bytes that one rotation by the sum of their
      angles writes. */
  lemma RotationsCompose<T(!new)>(lib: Library<T>, limits: Limits, data: Data, a: int, first: Encoded, b: int, second: Encoded,
                                  c: int, direct: Encoded)
    requires IsRotation(lib, limits, data, a, first) && PngLossless(lib) && !FormatOf(lib, data).Jpeg?
    requires IsRotation(lib, limits, first.data, b, second)
    requires IsRotation(lib, limits, data, c, direct) && SameAngle(a + b, c)
    ensures second == direct
  {
    var image := Displayed(lib, limits, data);
    WrittenAsOne(lib, limits, data, image, a, first, b, second, c);
    RotationWrites(lib, limits, data, image, c, direct);
  }

  /** And the file shows the first photo turned by the sum, so a full turn shows it as it
      was. */
  lemma RotationsAdd<T(!new)>(lib: Library<T>, limits: Limits, data: Data, a: int, first: Encoded, b: int, second: Encoded)
    requires IsRotation(lib, limits, data, a, first) && PngLossless(lib) && !FormatOf(lib, data).Jpeg?
    requires IsRotation(lib, limits, first.data, b, second)
    ensures Rotatable(lib, limits, second.data) && QuarterMultiple(a + b)
    ensures Displayed(lib, limits, second.data) == TurnBy(Displayed(lib, limits, data), a + b)
  {
    var image := Displayed(lib, limits, data);
    TurnedShows(lib, limits, data, image, a, first);
    TurnedShows(lib, limits, first.data, TurnBy(image, a), b, second);
    TurnBySum(image, a, b);
  }
}
