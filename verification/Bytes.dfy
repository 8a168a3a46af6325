/** Byte strings and the fixed-width integers read from them. */
module Bytes {
  newtype byte = x: int | 0 <= x < 256

  type Data = seq<byte>

  datatype Order = Little | Big

  function Uint16(order: Order, b: Data): (r: int)
    requires |b| >= 2
    ensures 0 <= r < 0x1_0000
  {
    match order
    case Little => b[0] as int + 0x100 * b[1] as int
    case Big => 0x100 * b[0] as int + b[1] as int
  }

  function Uint32(order: Order, b: Data): (r: int)
    requires |b| >= 4
    ensures 0 <= r < 0x1_0000_0000
  {
    match order
    case Little => Uint16(Little, b[..2]) + 0x1_0000 * Uint16(Little, b[2..4])
    case Big => 0x1_0000 * Uint16(Big, b[..2]) + Uint16(Big, b[2..4])
  }

  function Encode16(order: Order, n: int): (r: Data)
    requires 0 <= n < 0x1_0000
    ensures |r| == 2
  {
    match order
    case Little => [(n % 0x100) as byte, (n / 0x100) as byte]
    case Big => [(n / 0x100) as byte, (n % 0x100) as byte]
  }

  function Encode32(order: Order, n: int): (r: Data)
    requires 0 <= n < 0x1_0000_0000
    ensures |r| == 4
  {
    match order
    case Little => Encode16(Little, n % 0x1_0000) + Encode16(Little, n / 0x1_0000)
    case Big => Encode16(Big, n / 0x1_0000) + Encode16(Big, n % 0x1_0000)
  }

  lemma Round16(order: Order, n: int)
    requires 0 <= n < 0x1_0000
    ensures Uint16(order, Encode16(order, n)) == n
  {
  }

  lemma Round32(order: Order, n: int)
    requires 0 <= n < 0x1_0000_0000
    ensures Uint32(order, Encode32(order, n)) == n
  {
    var hi, lo := n / 0x1_0000, n % 0x1_0000;
    Round16(order, hi);
    Round16(order, lo);
    var e := Encode32(order, n);
    match order {
      case Little => assert e[..2] == Encode16(Little, lo) && e[2..4] == Encode16(Little, hi);
      case Big => assert e[..2] == Encode16(Big, hi) && e[2..4] == Encode16(Big, lo);
    }
  }

  lemma Back16(order: Order, b: Data)
    requires |b| == 2
    ensures Encode16(order, Uint16(order, b)) == b
  {
  }

  lemma Back32(order: Order, b: Data)
    requires |b| == 4
    ensures Encode32(order, Uint32(order, b)) == b
  {
    var n := Uint32(order, b);
    Back16(order, b[..2]);
    Back16(order, b[2..4]);
    match order {
      case Little => assert n % 0x1_0000 == Uint16(Little, b[..2]) && n / 0x1_0000 == Uint16(Little, b[2..4]);
      case Big => assert n / 0x1_0000 == Uint16(Big, b[..2]) && n % 0x1_0000 == Uint16(Big, b[2..4]);
    }
    assert b == b[..2] + b[2..4];
  }

  predicate HasPrefix(b: Data, prefix: Data) {
    |b| >= |prefix| && b[..|prefix|] == prefix
  }

  /** Which byte weighs more. */
  lemma ByteOrder(b: Data)
    requires |b| == 4
    ensures Uint16(Little, b[..2]) % 0x100 == b[0] as int && Uint16(Little, b[..2]) / 0x100 == b[1] as int
    ensures Uint16(Big, b[..2]) % 0x100 == b[1] as int && Uint16(Big, b[..2]) / 0x100 == b[0] as int
    ensures Uint32(Little, b) == b[0] as int + 0x100 * b[1] as int + 0x1_0000 * b[2] as int + 0x100_0000 * b[3] as int
    ensures Uint32(Big, b) == 0x100_0000 * b[0] as int + 0x1_0000 * b[1] as int + 0x100 * b[2] as int + b[3] as int
  {
  }

  /** The codes of a text. */
  function Ascii(s: string): (r: Data)
    ensures |r| == |s|
  {
    seq(|s|, i requires 0 <= i < |s| => (s[i] as int % 0x100) as byte)
  }
}
