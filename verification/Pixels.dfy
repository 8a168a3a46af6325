/** The pixel half of photo rotation: display orientation, clockwise turns, and
    the nested loop that performs both in one pass. */
module Pixels {
  import opened Turns

  /** A decoded image, row by row. */
  datatype Image<T> = Image(width: nat, height: nat, rows: seq<seq<T>>)
  {
    ghost predicate Valid() {
      && |rows| == height
      && forall y :: 0 <= y < height ==> |rows[y]| == width
    }

    function At(x: int, y: int): T
      requires Valid() && 0 <= x < width && 0 <= y < height
    {
      rows[y][x]
    }
  }

  lemma SameImage<T>(a: Image<T>, b: Image<T>)
    requires a.Valid() && b.Valid()
    requires a.width == b.width && a.height == b.height
    requires forall x, y :: 0 <= x < a.width && 0 <= y < a.height ==> a.At(x, y) == b.At(x, y)
    ensures a == b
  {
    forall y | 0 <= y < a.height ensures a.rows[y] == b.rows[y] {
      forall x | 0 <= x < a.width ensures a.rows[y][x] == b.rows[y][x] {
        assert a.At(x, y) == b.At(x, y);
      }
    }
  }

  // ----- the quarter turn and its group

  /** One clockwise quarter turn: the bottom row becomes the left column. */
  function Clockwise<T>(image: Image<T>): (r: Image<T>)
    requires image.Valid()
    ensures r.Valid() && r.width == image.height && r.height == image.width
  {
    Image(image.height, image.width,
      seq(image.width, y requires 0 <= y < image.width =>
        seq(image.height, x requires 0 <= x < image.height =>
          image.At(y, image.height - 1 - x))))
  }

  function Turn<T>(image: Image<T>, k: nat): (r: Image<T>)
    requires image.Valid()
    ensures r.Valid()
  {
    if k == 0 then image else Clockwise(Turn(image, k - 1))
  }

  lemma HalfTurn<T>(image: Image<T>, x: int, y: int)
    requires image.Valid() && 0 <= x < image.width && 0 <= y < image.height
    ensures Clockwise(Clockwise(image)).At(x, y) == image.At(image.width - 1 - x, image.height - 1 - y)
  {
    var one := Clockwise(image);
    assert Clockwise(one).At(x, y) == one.At(y, one.height - 1 - x);
  }

  lemma FourQuarters<T>(image: Image<T>)
    requires image.Valid()
    ensures Clockwise(Clockwise(Clockwise(Clockwise(image)))) == image
  {
    var half := Clockwise(Clockwise(image));
    var full := Clockwise(Clockwise(half));
    forall x, y | 0 <= x < image.width && 0 <= y < image.height
      ensures full.At(x, y) == image.At(x, y)
    {
      HalfTurn(half, x, y);
      HalfTurn(image, image.width - 1 - x, image.height - 1 - y);
    }
    SameImage(full, image);
  }

  lemma FullTurn<T>(image: Image<T>)
    requires image.Valid()
    ensures Turn(image, 4) == image
  {
    TurnUnfolded(image);
    FourQuarters(image);
  }

  /** The first four values of `Turn`. */
  lemma TurnUnfolded<T>(image: Image<T>)
    requires image.Valid()
    ensures Turn(image, 1) == Clockwise(image)
    ensures Turn(image, 2) == Clockwise(Clockwise(image))
    ensures Turn(image, 3) == Clockwise(Clockwise(Clockwise(image)))
    ensures Turn(image, 4) == Clockwise(Clockwise(Clockwise(Clockwise(image))))
  {
    assert Turn(image, 1) == Clockwise(Turn(image, 0));
    assert Turn(image, 2) == Clockwise(Turn(image, 1));
    assert Turn(image, 3) == Clockwise(Turn(image, 2));
  }

  lemma {:induction false} TurnSum<T>(image: Image<T>, a: nat, b: nat)
    requires image.Valid()
    ensures Turn(Turn(image, a), b) == Turn(image, a + b)
  {
    if b > 0 {
      TurnSum(image, a, b - 1);
    }
  }

  lemma {:induction false} TurnModulo<T>(image: Image<T>, k: nat)
    requires image.Valid()
    ensures Turn(image, k) == Turn(image, k % 4)
  {
    if k >= 4 {
      TurnModulo(image, k - 4);
      TurnSum(image, 4, k - 4);
      FullTurn(image);
      assert (k - 4) % 4 == k % 4;
    }
  }

  /** What an angle does to an image. */
  function TurnBy<T>(image: Image<T>, degrees: int): (r: Image<T>)
    requires image.Valid() && QuarterMultiple(degrees)
    ensures r.Valid()
  {
    Turn(image, Quarters(degrees))
  }

  lemma TurnBySum<T>(image: Image<T>, a: int, b: int)
    requires image.Valid() && QuarterMultiple(a) && QuarterMultiple(b)
    ensures QuarterMultiple(a + b)
    ensures TurnBy(TurnBy(image, a), b) == TurnBy(image, a + b)
  {
    QuartersSum(a, b);
    TurnSum(image, Quarters(a), Quarters(b));
    TurnModulo(image, Quarters(a) + Quarters(b));
  }

  lemma TurnBySame<T>(image: Image<T>, a: int, b: int)
    requires image.Valid() && QuarterMultiple(a) && SameAngle(a, b)
    ensures QuarterMultiple(b) && TurnBy(image, a) == TurnBy(image, b)
  {
    QuartersSame(a, b);
  }

  // ----- display orientation (the Orientation tag, section 8 of TIFF Revision 6.0)

  datatype Side = Top | Bottom | Left | Right

  /** The visual side on which stored row 0 is shown. */
  function RowZeroSide(orientation: int): Side
    requires 1 <= orientation <= 8
  {
    match orientation
    case 1 => Top
    case 2 => Top
    case 3 => Bottom
    case 4 => Bottom
    case 5 => Left
    case 6 => Right
    case 7 => Right
    case _ => Left
  }

  /** The visual side on which stored column 0 is shown. */
  function ColumnZeroSide(orientation: int): Side
    requires 1 <= orientation <= 8
  {
    match orientation
    case 1 => Left
    case 2 => Right
    case 3 => Right
    case 4 => Left
    case 5 => Top
    case 6 => Top
    case 7 => Bottom
    case _ => Bottom
  }

  predicate Swapped(orientation: int) {
    orientation >= 5
  }

  function DisplayWidth(orientation: int, w: int, h: int): int {
    if Swapped(orientation) then h else w
  }

  function DisplayHeight(orientation: int, w: int, h: int): int {
    if Swapped(orientation) then w else h
  }

  /** The distance of a line from its zero side gives one display coordinate. */
  function FromSide(side: Side, distance: int, displayWidth: int, displayHeight: int): (int, int) {
    match side
    case Top => (0, distance)
    case Bottom => (0, displayHeight - 1 - distance)
    case Left => (distance, 0)
    case Right => (displayWidth - 1 - distance, 0)
  }

  /** Where the standard shows the pixel stored at column x, row y. */
  function DisplayPosition(orientation: int, w: int, h: int, x: int, y: int): (int, int)
    requires 1 <= orientation <= 8
  {
    var dw, dh := DisplayWidth(orientation, w, h), DisplayHeight(orientation, w, h);
    var byRow := FromSide(RowZeroSide(orientation), y, dw, dh);
    var byColumn := FromSide(ColumnZeroSide(orientation), x, dw, dh);
    (byRow.0 + byColumn.0, byRow.1 + byColumn.1)
  }

  /** `upright` shows `stored` as its orientation tag demands. */
  ghost predicate IsUpright<T>(stored: Image<T>, orientation: int, upright: Image<T>)
    requires stored.Valid() && 1 <= orientation <= 8
  {
    && upright.Valid()
    && upright.width == DisplayWidth(orientation, stored.width, stored.height)
    && upright.height == DisplayHeight(orientation, stored.width, stored.height)
    && forall x, y :: 0 <= x < stored.width && 0 <= y < stored.height ==>
      var p := DisplayPosition(orientation, stored.width, stored.height, x, y);
      0 <= p.0 < upright.width && 0 <= p.1 < upright.height && upright.At(p.0, p.1) == stored.At(x, y)
  }

  /** The image as it is displayed. */
  function Upright<T>(stored: Image<T>, orientation: int): (r: Image<T>)
    requires stored.Valid() && 1 <= orientation <= 8
    ensures r.Valid()
    ensures r.width == DisplayWidth(orientation, stored.width, stored.height)
    ensures r.height == DisplayHeight(orientation, stored.width, stored.height)
  {
    var w, h := stored.width, stored.height;
    var nw, nh := DisplayWidth(orientation, w, h), DisplayHeight(orientation, w, h);
    Image(nw, nh,
      seq(nh, v requires 0 <= v < nh => seq(nw, u requires 0 <= u < nw => ShownAt(stored, orientation, u, v))))
  }

  function ShownAt<T>(stored: Image<T>, orientation: int, u: int, v: int): T
    requires stored.Valid() && 1 <= orientation <= 8
    requires Inside(DisplayWidth(orientation, stored.width, stored.height), DisplayHeight(orientation, stored.width, stored.height), (u, v))
  {
    UnorientedInverse(orientation, stored.width, stored.height, u, v);
    var p := Unoriented(orientation, stored.width, stored.height, u, v);
    stored.At(p.0, p.1)
  }

  /** `Upright` is the one image that the standard demands. */
  lemma UprightIsUpright<T>(stored: Image<T>, orientation: int)
    requires stored.Valid() && 1 <= orientation <= 8
    ensures IsUpright(stored, orientation, Upright(stored, orientation))
  {
    var w, h := stored.width, stored.height;
    var upright := Upright(stored, orientation);
    forall x, y | 0 <= x < w && 0 <= y < h
      ensures var p := DisplayPosition(orientation, w, h, x, y);
        0 <= p.0 < upright.width && 0 <= p.1 < upright.height && upright.At(p.0, p.1) == stored.At(x, y)
    {
      OrientedIsDisplay(orientation, w, h, x, y);
      OrientedInverse(orientation, w, h, x, y);
      var p := Oriented(orientation, w, h, x, y);
      assert upright.At(p.0, p.1) == ShownAt(stored, orientation, p.0, p.1);
    }
  }

  /** Where each of the eight values shows the two ends of the first stored row: at the right
      or at the left, at the bottom or at the top. */
  lemma CornersShown(orientation: int, w: int, h: int)
    requires w > 0 && h > 0 && 1 <= orientation <= 8
    ensures var right, bottom := DisplayWidth(orientation, w, h) - 1, DisplayHeight(orientation, w, h) - 1;
      && (right, bottom) == (if orientation <= 4 then (w - 1, h - 1) else (h - 1, w - 1))
      && DisplayPosition(orientation, w, h, 0, 0)
        == (if orientation in {2, 3, 6, 7} then right else 0, if orientation in {3, 4, 7, 8} then bottom else 0)
      && DisplayPosition(orientation, w, h, w - 1, 0)
        == (if orientation in {1, 4, 6, 7} then right else 0, if orientation in {3, 4, 5, 6} then bottom else 0)
  {
  }

  /** The top left corner goes to the top right by 90 degrees, to the bottom left by -90, and
      to the bottom right by 180. */
  lemma CornerTurns<T>(image: Image<T>)
    requires image.Valid() && image.width > 0 && image.height > 0
    ensures TurnBy(image, 90).width == TurnBy(image, -90).width == image.height && TurnBy(image, 180).width == image.width
    ensures TurnBy(image, 90).height == TurnBy(image, -90).height == image.width && TurnBy(image, 180).height == image.height
    ensures TurnBy(image, 90).At(image.height - 1, 0) == image.At(0, 0)
    ensures TurnBy(image, -90).At(0, image.width - 1) == image.At(0, 0)
    ensures TurnBy(image, 180).At(image.width - 1, image.height - 1) == image.At(0, 0)
  {
    TurnUnfolded(image);
    HalfTurn(image, image.width - 1, image.height - 1);
    HalfTurn(Clockwise(image), 0, image.width - 1);
  }

  // ----- the destination of a pixel, as the loop computes it

  /** The switch over the orientation. */
  function Oriented(orientation: int, w: int, h: int, x: int, y: int): (int, int) {
    match orientation
    case 2 => (w - 1 - x, y)
    case 3 => (w - 1 - x, h - 1 - y)
    case 4 => (x, h - 1 - y)
    case 5 => (y, x)
    case 6 => (h - 1 - y, x)
    case 7 => (h - 1 - y, w - 1 - x)
    case 8 => (y, w - 1 - x)
    case _ => (x, y)
  }

  /** The switch over the angle, on an upright image of size nw by nh. */
  function Rotated(degrees: int, nw: int, nh: int, u: int, v: int): (int, int) {
    match degrees
    case 90 => (nh - 1 - v, u)
    case -90 => (v, nw - 1 - u)
    case 180 => (nw - 1 - u, nh - 1 - v)
    case _ => (u, v)
  }

  function OutWidth(orientation: int, degrees: int, w: int, h: int): int {
    var nw, nh := DisplayWidth(orientation, w, h), DisplayHeight(orientation, w, h);
    if degrees != 180 then nh else nw
  }

  function OutHeight(orientation: int, degrees: int, w: int, h: int): int {
    var nw, nh := DisplayWidth(orientation, w, h), DisplayHeight(orientation, w, h);
    if degrees != 180 then nw else nh
  }

  /** The output cell that receives the pixel stored at (x, y). */
  function Destination(orientation: int, degrees: int, w: int, h: int, x: int, y: int): (int, int) {
    var nw, nh := DisplayWidth(orientation, w, h), DisplayHeight(orientation, w, h);
    var p := Oriented(orientation, w, h, x, y);
    Rotated(degrees, nw, nh, p.0, p.1)
  }

  /** The stored pixel that is shown at (u, v). */
  function Unoriented(orientation: int, w: int, h: int, u: int, v: int): (int, int) {
    match orientation
    case 2 => (w - 1 - u, v)
    case 3 => (w - 1 - u, h - 1 - v)
    case 4 => (u, h - 1 - v)
    case 5 => (v, u)
    case 6 => (v, h - 1 - u)
    case 7 => (w - 1 - v, h - 1 - u)
    case 8 => (w - 1 - v, u)
    case _ => (u, v)
  }

  /** The upright pixel that a rotated cell shows. */
  function Unrotated(degrees: int, nw: int, nh: int, u: int, v: int): (int, int) {
    match degrees
    case 90 => (v, nh - 1 - u)
    case -90 => (nw - 1 - v, u)
    case _ => (nw - 1 - u, nh - 1 - v)
  }

  /** The stored pixel that an output cell shows. */
  function Origin(orientation: int, degrees: int, w: int, h: int, u: int, v: int): (int, int) {
    var nw, nh := DisplayWidth(orientation, w, h), DisplayHeight(orientation, w, h);
    var p := Unrotated(degrees, nw, nh, u, v);
    Unoriented(orientation, w, h, p.0, p.1)
  }

  predicate Inside(w: int, h: int, p: (int, int)) {
    0 <= p.0 < w && 0 <= p.1 < h
  }

  lemma OrientedInverse(orientation: int, w: int, h: int, x: int, y: int)
    requires 1 <= orientation <= 8
    ensures var nw, nh := DisplayWidth(orientation, w, h), DisplayHeight(orientation, w, h);
      var p := Oriented(orientation, w, h, x, y);
      && Unoriented(orientation, w, h, p.0, p.1) == (x, y)
      && (Inside(w, h, (x, y)) <==> Inside(nw, nh, p))
  {
  }

  lemma UnorientedInverse(orientation: int, w: int, h: int, u: int, v: int)
    requires 1 <= orientation <= 8
    ensures var nw, nh := DisplayWidth(orientation, w, h), DisplayHeight(orientation, w, h);
      var p := Unoriented(orientation, w, h, u, v);
      && Oriented(orientation, w, h, p.0, p.1) == (u, v)
      && (Inside(w, h, p) <==> Inside(nw, nh, (u, v)))
  {
  }

  lemma RotatedInverse(degrees: int, nw: int, nh: int, u: int, v: int)
    requires Legal(degrees)
    ensures var ow, oh := if degrees != 180 then nh else nw, if degrees != 180 then nw else nh;
      var p, q := Rotated(degrees, nw, nh, u, v), Unrotated(degrees, nw, nh, u, v);
      && Unrotated(degrees, nw, nh, p.0, p.1) == (u, v)
      && (Inside(nw, nh, (u, v)) <==> Inside(ow, oh, p))
      && Rotated(degrees, nw, nh, q.0, q.1) == (u, v)
      && (Inside(nw, nh, q) <==> Inside(ow, oh, (u, v)))
  {
  }

  /** The loop's destination map is a bijection between the stored pixels and the
      output cells, so each cell is written exactly once and no pixel is lost. */
  lemma DestinationBijection(orientation: int, degrees: int, w: int, h: int, x: int, y: int)
    requires 1 <= orientation <= 8 && Legal(degrees)
    ensures var ow, oh := OutWidth(orientation, degrees, w, h), OutHeight(orientation, degrees, w, h);
      var p, q := Destination(orientation, degrees, w, h, x, y), Origin(orientation, degrees, w, h, x, y);
      && (Inside(w, h, (x, y)) <==> Inside(ow, oh, p))
      && (Inside(ow, oh, (x, y)) <==> Inside(w, h, q))
      && Origin(orientation, degrees, w, h, p.0, p.1) == (x, y)
      && Destination(orientation, degrees, w, h, q.0, q.1) == (x, y)
  {
    var nw, nh := DisplayWidth(orientation, w, h), DisplayHeight(orientation, w, h);
    var a := Oriented(orientation, w, h, x, y);
    OrientedInverse(orientation, w, h, x, y);
    RotatedInverse(degrees, nw, nh, a.0, a.1);
    var b := Unrotated(degrees, nw, nh, x, y);
    RotatedInverse(degrees, nw, nh, x, y);
    UnorientedInverse(orientation, w, h, b.0, b.1);
  }

  /** The switch of the loop places pixels where the standard shows them. */
  lemma OrientedIsDisplay(orientation: int, w: int, h: int, x: int, y: int)
    requires 1 <= orientation <= 8
    ensures Oriented(orientation, w, h, x, y) == DisplayPosition(orientation, w, h, x, y)
  {
  }

  /** The three angles of the loop are one, three and two clockwise turns. */
  lemma RotatedIsTurn<T>(upright: Image<T>, degrees: int, u: int, v: int)
    requires upright.Valid() && Legal(degrees) && 0 <= u < upright.width && 0 <= v < upright.height
    ensures var p := Rotated(degrees, upright.width, upright.height, u, v);
      var turned := TurnBy(upright, degrees);
      && 0 <= p.0 < turned.width && 0 <= p.1 < turned.height
      && turned.At(p.0, p.1) == upright.At(u, v)
  {
    var w, h := upright.width, upright.height;
    var one := Clockwise(upright);
    var two := Clockwise(one);
    var three := Clockwise(two);
    TurnUnfolded(upright);
    assert Quarters(90) == 1 && Quarters(180) == 2 && Quarters(-90) == 3;
    assert one.At(h - 1 - v, u) == upright.At(u, v);
    assert two.At(w - 1 - u, h - 1 - v) == one.At(h - 1 - v, u);
    assert three.At(v, w - 1 - u) == two.At(w - 1 - u, h - 1 - v);
  }

  /** Reads a two-dimensional pixel buffer as an image. */
  function Buffered<T>(out: array2<T>): (r: Image<T>)
    reads out
    ensures r.Valid() && r.width == out.Length1 && r.height == out.Length0
    ensures forall x, y :: 0 <= x < r.width && 0 <= y < r.height ==> r.At(x, y) == out[y, x]
  {
    Image(out.Length1, out.Length0,
      seq(out.Length0, y requires 0 <= y < out.Length0 reads out =>
        seq(out.Length1, x requires 0 <= x < out.Length1 reads out => out[y, x])))
  }

  /** An image whose cells are read through `Origin` is the upright image turned. */
  lemma WrittenIsTurned<T>(stored: Image<T>, orientation: int, degrees: int, upright: Image<T>, result: Image<T>)
    requires stored.Valid() && 1 <= orientation <= 8 && Legal(degrees)
    requires IsUpright(stored, orientation, upright)
    requires result.Valid()
    requires result.width == OutWidth(orientation, degrees, stored.width, stored.height)
    requires result.height == OutHeight(orientation, degrees, stored.width, stored.height)
    requires forall x, y :: 0 <= x < stored.width && 0 <= y < stored.height ==>
      var p := Destination(orientation, degrees, stored.width, stored.height, x, y);
      0 <= p.0 < result.width && 0 <= p.1 < result.height && result.At(p.0, p.1) == stored.At(x, y)
    ensures result == TurnBy(upright, degrees)
  {
    var w, h := stored.width, stored.height;
    var turned := TurnBy(upright, degrees);
    TurnUnfolded(upright);
    assert turned.width == result.width && turned.height == result.height;
    forall u, v | 0 <= u < result.width && 0 <= v < result.height
      ensures result.At(u, v) == turned.At(u, v)
    {
      DestinationBijection(orientation, degrees, w, h, u, v);
      var o := Origin(orientation, degrees, w, h, u, v);
      OrientedIsDisplay(orientation, w, h, o.0, o.1);
      var p := DisplayPosition(orientation, w, h, o.0, o.1);
      assert upright.At(p.0, p.1) == stored.At(o.0, o.1);
      RotatedIsTurn(upright, degrees, p.0, p.1);
    }
    SameImage(result, turned);
  }

  /** The loop visits the stored pixels row by row. */
  predicate Before(p: (int, int), x: int, y: int) {
    p.1 < y || (p.1 == y && p.0 < x)
  }

  ghost predicate Holds<T>(cell: T, source: Image<T>, origin: (int, int)) 
    requires source.Valid()
  {
    Inside(source.width, source.height, origin) && cell == source.At(origin.0, origin.1)
  }

  /** The two switches in the body of the loop. */
  method Target(orientation: int, degrees: int, w: int, h: int, nw: int, nh: int, x: int, y: int)
    returns (u: int, v: int)
    requires 1 <= orientation <= 8 && Legal(degrees) && Inside(w, h, (x, y))
    requires nw == DisplayWidth(orientation, w, h) && nh == DisplayHeight(orientation, w, h)
    ensures (u, v) == Destination(orientation, degrees, w, h, x, y)
  {
    u, v := x, y;
    match orientation {
      case 2 => u := w - 1 - x;
      case 3 => u, v := w - 1 - x, h - 1 - y;
      case 4 => v := h - 1 - y;
      case 5 => u, v := y, x;
      case 6 => u, v := h - 1 - y, x;
      case 7 => u, v := h - 1 - y, w - 1 - x;
      case 8 => u, v := y, w - 1 - x;
      case _ =>
    }
    match degrees {
      case 90 => u, v := nh - 1 - v, u;
      case -90 => u, v := v, nw - 1 - u;
      case 180 => u, v := nw - 1 - u, nh - 1 - v;
      case _ =>
    }
  }

  /** `buffer` has the size that the output of the loop has. */
  ghost predicate OutputSize<T>(buffer: Image<T>, source: Image<T>, orientation: int, degrees: int) {
    && buffer.Valid()
    && buffer.width == OutWidth(orientation, degrees, source.width, source.height)
    && buffer.height == OutHeight(orientation, degrees, source.width, source.height)
  }

  /** The cells of `buffer` whose stored pixel comes before (x, y) in the visit are written. */
  ghost predicate Written<T>(buffer: Image<T>, source: Image<T>, orientation: int, degrees: int, x: int, y: int)
    requires source.Valid() && buffer.Valid()
  {
    forall u, v :: 0 <= u < buffer.width && 0 <= v < buffer.height ==>
      CellWritten(buffer, source, orientation, degrees, x, y, u, v)
  }

  ghost predicate CellWritten<T>(buffer: Image<T>, source: Image<T>, orientation: int, degrees: int, x: int, y: int, u: int, v: int)
    requires source.Valid() && buffer.Valid() && 0 <= u < buffer.width && 0 <= v < buffer.height
  {
    var o := Origin(orientation, degrees, source.width, source.height, u, v);
    Before(o, x, y) ==> Holds(buffer.At(u, v), source, o)
  }

  lemma NothingBefore<T>(buffer: Image<T>, source: Image<T>, orientation: int, degrees: int)
    requires source.Valid() && 1 <= orientation <= 8 && Legal(degrees)
    requires OutputSize(buffer, source, orientation, degrees)
    ensures Written(buffer, source, orientation, degrees, 0, 0)
  {
    forall u, v | 0 <= u < buffer.width && 0 <= v < buffer.height
      ensures CellWritten(buffer, source, orientation, degrees, 0, 0, u, v)
    {
      DestinationBijection(orientation, degrees, source.width, source.height, u, v);
    }
  }

  /** Only (x, y) separates the pixels before (x, y) from those before (x + 1, y),
      and only its destination shows it. */
  lemma OneMore(orientation: int, degrees: int, w: int, h: int, x: int, y: int, u: int, v: int, i: int, j: int)
    requires 1 <= orientation <= 8 && Legal(degrees)
    requires (u, v) == Destination(orientation, degrees, w, h, x, y)
    requires Before(Origin(orientation, degrees, w, h, i, j), x + 1, y)
    ensures (i, j) == (u, v) <==> Origin(orientation, degrees, w, h, i, j) == (x, y)
    ensures (i, j) != (u, v) ==> Before(Origin(orientation, degrees, w, h, i, j), x, y)
  {
    DestinationBijection(orientation, degrees, w, h, i, j);
    DestinationBijection(orientation, degrees, w, h, x, y);
  }

  /** Writing one destination finishes one more stored pixel and spoils none. */
  lemma CellStep<T>(before: Image<T>, after: Image<T>, source: Image<T>, orientation: int, degrees: int, x: int, y: int, u: int, v: int)
    requires source.Valid() && 1 <= orientation <= 8 && Legal(degrees)
    requires 0 <= x < source.width && 0 <= y < source.height
    requires (u, v) == Destination(orientation, degrees, source.width, source.height, x, y)
    requires before.Valid() && after.Valid() && before.width == after.width && before.height == after.height
    requires Written(before, source, orientation, degrees, x, y)
    requires forall i, j :: 0 <= i < after.width && 0 <= j < after.height ==>
      after.At(i, j) == if (i, j) == (u, v) then source.At(x, y) else before.At(i, j)
    ensures Written(after, source, orientation, degrees, x + 1, y)
  {
    var next := x + 1;
    forall i, j | 0 <= i < after.width && 0 <= j < after.height
      ensures CellWritten(after, source, orientation, degrees, next, y, i, j)
    {
      var o := Origin(orientation, degrees, source.width, source.height, i, j);
      if Before(o, x + 1, y) {
        assert CellWritten(before, source, orientation, degrees, x, y, i, j);
        OneMore(orientation, degrees, source.width, source.height, x, y, u, v, i, j);
      }
    }
  }

  lemma RowDone<T>(buffer: Image<T>, source: Image<T>, orientation: int, degrees: int, y: int)
    requires source.Valid() && 1 <= orientation <= 8 && Legal(degrees)
    requires OutputSize(buffer, source, orientation, degrees)
    requires Written(buffer, source, orientation, degrees, source.width, y)
    ensures Written(buffer, source, orientation, degrees, 0, y + 1)
  {
    var next := y + 1;
    forall i, j | 0 <= i < buffer.width && 0 <= j < buffer.height
      ensures CellWritten(buffer, source, orientation, degrees, 0, next, i, j)
    {
      assert CellWritten(buffer, source, orientation, degrees, source.width, y, i, j);
      DestinationBijection(orientation, degrees, source.width, source.height, i, j);
    }
  }

  lemma AllWritten<T>(buffer: Image<T>, source: Image<T>, orientation: int, degrees: int, upright: Image<T>)
    requires source.Valid() && 1 <= orientation <= 8 && Legal(degrees)
    requires IsUpright(source, orientation, upright)
    requires OutputSize(buffer, source, orientation, degrees)
    requires Written(buffer, source, orientation, degrees, 0, source.height)
    ensures buffer == TurnBy(upright, degrees)
  {
    var w, h := source.width, source.height;
    forall x, y | 0 <= x < w && 0 <= y < h
      ensures var p := Destination(orientation, degrees, w, h, x, y);
        0 <= p.0 < buffer.width && 0 <= p.1 < buffer.height && buffer.At(p.0, p.1) == source.At(x, y)
    {
      DestinationBijection(orientation, degrees, w, h, x, y);
      var p := Destination(orientation, degrees, w, h, x, y);
      assert CellWritten(buffer, source, orientation, degrees, 0, h, p.0, p.1);
    }
    WrittenIsTurned(source, orientation, degrees, upright, buffer);
  }

  /** The body of the nested loop: one stored pixel. */
  method WritePixel<T>(source: Image<T>, orientation: int, degrees: int, nw: int, nh: int, x: int, y: int, out: array2<T>)
    requires source.Valid() && 1 <= orientation <= 8 && Legal(degrees) && 0 <= x < source.width && 0 <= y < source.height
    requires nw == DisplayWidth(orientation, source.width, source.height) && nh == DisplayHeight(orientation, source.width, source.height)
    requires OutputSize(Buffered(out), source, orientation, degrees)
    requires Written(Buffered(out), source, orientation, degrees, x, y)
    modifies out
    ensures Written(Buffered(out), source, orientation, degrees, x + 1, y)
  {
    var u, v := Target(orientation, degrees, source.width, source.height, nw, nh, x, y);
    DestinationBijection(orientation, degrees, source.width, source.height, x, y);
    ghost var before := Buffered(out);
    out[v, u] := source.At(x, y);
    CellStep(before, Buffered(out), source, orientation, degrees, x, y, u, v);
  }

  /** The inner loop: one row of stored pixels. */
  method RotateRow<T>(source: Image<T>, orientation: int, degrees: int, nw: int, nh: int, y: int, out: array2<T>)
    requires source.Valid() && 1 <= orientation <= 8 && Legal(degrees) && 0 <= y < source.height
    requires nw == DisplayWidth(orientation, source.width, source.height) && nh == DisplayHeight(orientation, source.width, source.height)
    requires OutputSize(Buffered(out), source, orientation, degrees)
    requires Written(Buffered(out), source, orientation, degrees, 0, y)
    modifies out
    ensures Written(Buffered(out), source, orientation, degrees, 0, y + 1)
  {
    for x := 0 to source.width
      invariant Written(Buffered(out), source, orientation, degrees, x, y)
    {
      WritePixel(source, orientation, degrees, nw, nh, x, y, out);
    }
    RowDone(Buffered(out), source, orientation, degrees, y);
  }

  /** The nested loop of `rotatePixels`. */
  method RotatePixels<T(0)>(source: Image<T>, orientation: int, degrees: int)
    returns (out: array2<T>)
    requires source.Valid() && 1 <= orientation <= 8 && Legal(degrees)
    ensures fresh(out)
    ensures Buffered(out) == TurnBy(Upright(source, orientation), degrees)
  {
    var w, h := source.width, source.height;
    var nw, nh := w, h;
    if orientation >= 5 {
      nw, nh := h, w;
    }
    var ow, oh := nw, nh;
    if degrees != 180 {
      ow, oh := nh, nw;
    }
    out := new T[oh, ow];
    NothingBefore(Buffered(out), source, orientation, degrees);
    for y := 0 to h
      invariant Written(Buffered(out), source, orientation, degrees, 0, y)
    {
      RotateRow(source, orientation, degrees, nw, nh, y, out);
    }
    UprightIsUpright(source, orientation);
    AllWritten(Buffered(out), source, orientation, degrees, Upright(source, orientation));
  }
}
