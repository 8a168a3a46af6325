/** The order of text keys. */
module Strings {
  predicate StringLess(a: string, b: string) {
    b != [] && (a == [] || a[0] < b[0] || (a[0] == b[0] && StringLess(a[1..], b[1..])))
  }

  /** A strict total order. */
  lemma {:induction false} StringOrder(a: string, b: string, c: string)
    ensures StringLess(a, b) || StringLess(b, a) || a == b
    ensures StringLess(a, b) && StringLess(b, c) ==> StringLess(a, c)
    ensures !StringLess(a, a)
  {
    if a != [] && b != [] {
      StringOrder(a[1..], b[1..], if c == [] then [] else c[1..]);
      if a[0] == b[0] && a[1..] == b[1..] {
        assert a == [a[0]] + a[1..] && b == [b[0]] + b[1..];
      }
    } else if a != [] {
      StringOrder(a[1..], [], []);
    }
  }

  /** One text comes before another if it is a proper prefix of it, or has the smaller
      character at the first place where they differ. */
  lemma {:induction false} StringLessIff(a: string, b: string)
    ensures StringLess(a, b) <==> exists n :: DiffersAt(a, b, n)
  {
    if a != [] && b != [] && a[0] == b[0] {
      StringLessIff(a[1..], b[1..]);
      if exists n :: DiffersAt(a[1..], b[1..], n) {
        var n :| DiffersAt(a[1..], b[1..], n);
        assert DiffersAt(a, b, n + 1);
      }
      if exists n :: DiffersAt(a, b, n) {
        var n :| DiffersAt(a, b, n);
        assert n > 0 && DiffersAt(a[1..], b[1..], n - 1);
      }
    } else if StringLess(a, b) {
      assert DiffersAt(a, b, 0);
    }
  }

  /** The first `n` characters agree, and there the first text ends or is smaller. */
  predicate DiffersAt(a: string, b: string, n: int) {
    && 0 <= n <= |a| && n < |b|
    && (forall i :: 0 <= i < n ==> a[i] == b[i])
    && (n < |a| ==> a[n] < b[n])
  }
}
