/** The marker half of photo rotation: the coordinate update of the photo_markers
    table, in real arithmetic, and its agreement with the pixel loop. */
module Markers {
  import opened Turns
  import opened Pixels

  /** A position relative to the displayed image, both coordinates in [0, 1]. */
  datatype Point = Point(x: real, y: real)
  {
    predicate InUnitSquare() {
      0.0 <= x <= 1.0 && 0.0 <= y <= 1.0
    }
  }

  /** The two CASE expressions of the update statement. */
  function Update(p: Point, degrees: int): Point {
    Point(
      match degrees case 90 => 1.0 - p.y case -90 => p.y case _ => 1.0 - p.x,
      match degrees case 90 => p.x case -90 => 1.0 - p.x case _ => 1.0 - p.y)
  }

  function QuarterTurn(p: Point): Point {
    Point(1.0 - p.y, p.x)
  }

  function TurnPoint(p: Point, k: nat): Point {
    if k == 0 then p else QuarterTurn(TurnPoint(p, k - 1))
  }

  lemma {:induction false} TurnPointSum(p: Point, a: nat, b: nat)
    ensures TurnPoint(TurnPoint(p, a), b) == TurnPoint(p, a + b)
  {
    if b > 0 {
      TurnPointSum(p, a, b - 1);
    }
  }

  lemma TurnPointUnfolded(p: Point)
    ensures TurnPoint(p, 1) == Point(1.0 - p.y, p.x)
    ensures TurnPoint(p, 2) == Point(1.0 - p.x, 1.0 - p.y)
    ensures TurnPoint(p, 3) == Point(p.y, 1.0 - p.x)
    ensures TurnPoint(p, 4) == p
  {
    assert TurnPoint(p, 1) == QuarterTurn(TurnPoint(p, 0));
    assert TurnPoint(p, 2) == QuarterTurn(TurnPoint(p, 1));
    assert TurnPoint(p, 3) == QuarterTurn(TurnPoint(p, 2));
  }

  lemma {:induction false} TurnPointModulo(p: Point, k: nat)
    ensures TurnPoint(p, k) == TurnPoint(p, k % 4)
  {
    if k >= 4 {
      TurnPointModulo(p, k - 4);
      TurnPointSum(p, 4, k - 4);
      TurnPointUnfolded(p);
      assert (k - 4) % 4 == k % 4;
    }
  }

  function TurnPointBy(p: Point, degrees: int): Point
    requires QuarterMultiple(degrees)
  {
    TurnPoint(p, Quarters(degrees))
  }

  /** The statement performs the quarter turns that its angle stands for. */
  lemma UpdateIsTurn(p: Point, degrees: int)
    requires Legal(degrees)
    ensures Update(p, degrees) == TurnPointBy(p, degrees)
  {
    TurnPointUnfolded(p);
    assert Quarters(90) == 1 && Quarters(180) == 2 && Quarters(-90) == 3;
  }

  lemma TurnPointBySum(p: Point, a: int, b: int)
    requires QuarterMultiple(a) && QuarterMultiple(b)
    ensures QuarterMultiple(a + b)
    ensures TurnPointBy(TurnPointBy(p, a), b) == TurnPointBy(p, a + b)
  {
    QuartersSum(a, b);
    TurnPointSum(p, Quarters(a), Quarters(b));
    TurnPointModulo(p, Quarters(a) + Quarters(b));
  }

  lemma TurnPointBySame(p: Point, a: int, b: int)
    requires QuarterMultiple(a) && SameAngle(a, b)
    ensures QuarterMultiple(b) && TurnPointBy(p, a) == TurnPointBy(p, b)
  {
    QuartersSame(a, b);
  }

  /** No turn moves a marker off the photo, or one from outside onto it. */
  lemma {:induction false} TurnKeepsUnitSquare(p: Point, k: nat)
    ensures TurnPoint(p, k).InUnitSquare() <==> p.InUnitSquare()
  {
    if k > 0 {
      TurnKeepsUnitSquare(p, k - 1);
    }
  }

  /** The centre of the pixel at column u, row v of a w by h image. */
  function Center(u: int, v: int, w: int, h: int): Point
    requires w > 0 && h > 0
  {
    Point((u as real + 0.5) / w as real, (v as real + 0.5) / h as real)
  }

  lemma NoZeroDivisor(a: real, d: real)
    requires d != 0.0 && a * d == 0.0
    ensures a == 0.0
  {
  }

  lemma Mirrored(i: int, n: int)
    requires n > 0
    ensures 1.0 - (i as real + 0.5) / n as real == ((n - 1 - i) as real + 0.5) / n as real
  {
    var d, e := n as real, i as real + 0.5;
    assert (n - 1 - i) as real + 0.5 == d - e;
    var q, r := e / d, (d - e) / d;
    assert q * d == e && r * d == d - e;
    assert (1.0 - q - r) * d == d - q * d - r * d;
    NoZeroDivisor(1.0 - q - r, d);
  }

  /** A marker on the centre of a displayed pixel stays on that pixel. */
  lemma MarkerFollowsPixel(degrees: int, w: int, h: int, u: int, v: int)
    requires Legal(degrees) && w > 0 && h > 0
    ensures var p := Rotated(degrees, w, h, u, v);
      Update(Center(u, v, w, h), degrees)
        == Center(p.0, p.1, if degrees != 180 then h else w, if degrees != 180 then w else h)
  {
    Mirrored(u, w);
    Mirrored(v, h);
  }

  /** The same through the whole loop: wherever the loop sends a stored pixel, the
      update sends the marker that was on its displayed centre. */
  lemma MarkerFollowsDestination(orientation: int, degrees: int, w: int, h: int, x: int, y: int)
    requires 1 <= orientation <= 8 && Legal(degrees) && Inside(w, h, (x, y))
    ensures var shown := DisplayPosition(orientation, w, h, x, y);
      var moved := Destination(orientation, degrees, w, h, x, y);
      Update(Center(shown.0, shown.1, DisplayWidth(orientation, w, h), DisplayHeight(orientation, w, h)), degrees)
        == Center(moved.0, moved.1, OutWidth(orientation, degrees, w, h), OutHeight(orientation, degrees, w, h))
  {
    OrientedIsDisplay(orientation, w, h, x, y);
    var shown := DisplayPosition(orientation, w, h, x, y);
    MarkerFollowsPixel(degrees, DisplayWidth(orientation, w, h), DisplayHeight(orientation, w, h), shown.0, shown.1);
  }
}
