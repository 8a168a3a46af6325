/** Angles of the photo-rotation feature: the client's degree arithmetic and the
    group of quarter turns that the server applies. */
module Turns {

  /** The remainder operator of JavaScript: it keeps the sign of the dividend. */
  function JsRemainder(a: int, n: int): int
    requires n > 0
  {
    if a >= 0 then a % n else -((-a) % n)
  }

  /** The client's `normalize`. */
  function Normalize(degrees: int): int {
    JsRemainder(JsRemainder(degrees, 360) + 360, 360)
  }

  lemma ResidueUnique(a: int, turns: int, rest: int)
    requires 0 <= rest < 360 && a == 360 * turns + rest
    ensures a % 360 == rest
  {
  }

  /** Despite the sign-keeping remainder, the result is the residue in [0, 360),
      for negative angles too. */
  lemma NormalizeIsResidue(degrees: int)
    ensures Normalize(degrees) == degrees % 360
  {
    if degrees >= 0 {
      ResidueUnique(degrees % 360 + 360, 1, degrees % 360);
    } else {
      var q, m := (-degrees) / 360, (-degrees) % 360;
      assert degrees == 360 * -q - m;
      if m == 0 {
        ResidueUnique(degrees, -q, 0);
      } else {
        ResidueUnique(degrees, -q - 1, 360 - m);
      }
    }
  }

  /** Two angles that differ by whole turns. */
  predicate SameAngle(a: int, b: int) {
    a % 360 == b % 360
  }

  lemma NormalizeSameAngle(degrees: int)
    ensures 0 <= Normalize(degrees) < 360
    ensures SameAngle(Normalize(degrees), degrees)
  {
    NormalizeIsResidue(degrees);
  }

  lemma SameAngleSum(a: int, b: int, c: int, d: int)
    requires SameAngle(a, b) && SameAngle(c, d)
    ensures SameAngle(a + c, b + d)
  {
    var m, n := a / 360 - b / 360, c / 360 - d / 360;
    assert a == b + 360 * m && c == d + 360 * n;
    WholeTurns(b + d, m + n);
  }

  lemma WholeTurns(degrees: int, turns: int)
    ensures SameAngle(degrees + 360 * turns, degrees)
  {
    var q, r := degrees / 360, degrees % 360;
    assert degrees + 360 * turns == 360 * (q + turns) + r;
  }

  predicate QuarterMultiple(degrees: int) {
    degrees % 90 == 0
  }

  /** The angles the rotate endpoint accepts. */
  predicate Legal(degrees: int) {
    degrees == 90 || degrees == -90 || degrees == 180
  }

  /** How many clockwise quarter turns an angle stands for. */
  function Quarters(degrees: int): (k: nat)
    requires QuarterMultiple(degrees)
    ensures k < 4
  {
    (degrees / 90) % 4
  }

  lemma QuartersSum(a: int, b: int)
    requires QuarterMultiple(a) && QuarterMultiple(b)
    ensures QuarterMultiple(a + b)
    ensures Quarters(a + b) == (Quarters(a) + Quarters(b)) % 4
  {
    assert a == 90 * (a / 90) && b == 90 * (b / 90);
    assert a + b == 90 * (a / 90 + b / 90);
    assert (a + b) / 90 == a / 90 + b / 90;
  }

  /** The residue of an angle tells its quarter turns. */
  lemma QuartersOfResidue(a: int)
    ensures QuarterMultiple(a) <==> QuarterMultiple(a % 360)
    ensures QuarterMultiple(a) ==> a % 360 == 90 * Quarters(a)
  {
    var k, m := a / 90, a % 90;
    assert a == 360 * (k / 4) + (90 * (k % 4) + m);
    ResidueUnique(a, k / 4, 90 * (k % 4) + m);
  }

  lemma QuartersSame(a: int, b: int)
    requires QuarterMultiple(a) && SameAngle(a, b)
    ensures QuarterMultiple(b) && Quarters(a) == Quarters(b)
  {
    QuartersOfResidue(a);
    QuartersOfResidue(b);
  }

  function Sum(clicks: seq<int>): int {
    if clicks == [] then 0 else Sum(clicks[..|clicks| - 1]) + clicks[|clicks| - 1]
  }

  lemma SumAppend(clicks: seq<int>, degrees: int)
    ensures Sum(clicks + [degrees]) == Sum(clicks) + degrees
  {
    assert (clicks + [degrees])[..|clicks|] == clicks;
  }

  lemma SumQuarterMultiple(clicks: seq<int>)
    requires forall i :: 0 <= i < |clicks| ==> QuarterMultiple(clicks[i])
    ensures QuarterMultiple(Sum(clicks))
  {
    if clicks != [] {
      SumQuarterMultiple(clicks[..|clicks| - 1]);
      QuartersSum(Sum(clicks[..|clicks| - 1]), clicks[|clicks| - 1]);
    }
  }
}
