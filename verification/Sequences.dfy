/** Sequences of rotations, on images and on markers. */
module Sequences {
  import opened Turns
  import opened Pixels
  import opened Markers

  predicate AllQuarters(clicks: seq<int>) {
    forall i :: 0 <= i < |clicks| ==> QuarterMultiple(clicks[i])
  }

  /** Each click applied to the image in turn. */
  function OneByOne<T>(image: Image<T>, clicks: seq<int>): (r: Image<T>)
    requires image.Valid() && AllQuarters(clicks)
    ensures r.Valid()
  {
    if clicks == [] then image
    else TurnBy(OneByOne(image, clicks[..|clicks| - 1]), clicks[|clicks| - 1])
  }

  function PointOneByOne(p: Point, clicks: seq<int>): Point
    requires AllQuarters(clicks)
  {
    if clicks == [] then p
    else TurnPointBy(PointOneByOne(p, clicks[..|clicks| - 1]), clicks[|clicks| - 1])
  }

  /** One turn by the sum is every click in turn. */
  lemma {:induction false} OneByOneIsSum<T>(image: Image<T>, p: Point, clicks: seq<int>)
    requires image.Valid() && AllQuarters(clicks)
    ensures QuarterMultiple(Sum(clicks))
    ensures OneByOne(image, clicks) == TurnBy(image, Sum(clicks))
    ensures PointOneByOne(p, clicks) == TurnPointBy(p, Sum(clicks))
  {
    if clicks != [] {
      var before, last := clicks[..|clicks| - 1], clicks[|clicks| - 1];
      OneByOneIsSum(image, p, before);
      TurnBySum(image, Sum(before), last);
      TurnPointBySum(p, Sum(before), last);
    }
  }
}
