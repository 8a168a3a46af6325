/** Image formats and what rotating a file of them keeps. */
module Formats {
  import opened Common
  import opened Turns
  import opened Pixels

  /** A rotation of a file of the format shows the file turned, in the format. */
  ghost predicate TurnsTrue<B, T>(view: B -> Image<T>, rotate: (B, int) -> Option<B>, format: iset<B>, b: B, degrees: int)
    requires view(b).Valid() && Legal(degrees)
  {
    rotate(b, degrees).Some? ==>
      rotate(b, degrees).value in format && view(rotate(b, degrees).value) == TurnBy(view(b), degrees)
  }

  /** A format that loses nothing when it is encoded again. Other formats may. */
  ghost predicate Lossless<B(!new), T>(view: B -> Image<T>, rotate: (B, int) -> Option<B>, format: iset<B>) {
    && (forall b <- format :: view(b).Valid())
    && forall b, degrees :: b in format && Legal(degrees) ==> TurnsTrue(view, rotate, format, b, degrees)
  }
}
