/** Three-way comparison, component by component. */
module Comparing {
  import opened Wrappers
  import opened MachineIntegers

  datatype Order = Less | Equal | Greater

  function Then(first: Order, second: Order): Order {
    if first == Equal then second else first
  }

  function Flip(o: Order): Order {
    match o
    case Less => Greater
    case Equal => Equal
    case Greater => Less
  }

  function CompareInts(a: int, b: int): Order {
    if a < b then Less else if a == b then Equal else Greater
  }

  /** `None` comes first. */
  function CompareOptions(a: Option<u64>, b: Option<u64>): Order {
    match (a, b)
    case (None, None) => Equal
    case (None, Some(_)) => Less
    case (Some(_), None) => Greater
    case (Some(x), Some(y)) => CompareInts(x, y)
  }

  function CompareBytes(a: Bytes, b: Bytes): Order {
    if a == [] && b == [] then Equal
    else if a == [] then Less
    else if b == [] then Greater
    else Then(CompareInts(a[0], b[0]), CompareBytes(a[1..], b[1..]))
  }

  /** How the comparisons of x with y, y with z and x with z fit together. */
  predicate Composes(xy: Order, yz: Order, xz: Order) {
    (xy == Equal ==> xz == yz) && (yz == Equal ==> xz == xy) && (xy == yz ==> xz == xy)
  }

  lemma {:induction false} BytesFlip(a: Bytes, b: Bytes)
    ensures CompareBytes(b, a) == Flip(CompareBytes(a, b))
    ensures CompareBytes(a, b) == Equal <==> a == b
  {
    if a != [] && b != [] {
      BytesFlip(a[1..], b[1..]);
      assert a == b <==> a[0] == b[0] && a[1..] == b[1..] by {
        assert a == [a[0]] + a[1..] && b == [b[0]] + b[1..];
      }
    }
  }

  lemma {:induction false} BytesCompose(a: Bytes, b: Bytes, c: Bytes)
    ensures Composes(CompareBytes(a, b), CompareBytes(b, c), CompareBytes(a, c))
  {
    if a != [] && b != [] && c != [] {
      BytesCompose(a[1..], b[1..], c[1..]);
    }
  }

  /** Byte order: at the first difference the smaller byte, or the end, comes first. */
  ghost predicate BytesLess(a: Bytes, b: Bytes) {
    exists i :: 0 <= i <= |a| && i < |b| && a[..i] == b[..i] && (i < |a| ==> a[i] < b[i])
  }

  lemma {:induction false} LessIsByteOrder(a: Bytes, b: Bytes)
    ensures CompareBytes(a, b) == Less <==> BytesLess(a, b)
  {
    if a == [] {
      assert b != [] ==> a[..0] == b[..0];
    } else if b != [] {
      LessIsByteOrder(a[1..], b[1..]);
      if CompareBytes(a, b) == Less {
        if a[0] < b[0] {
          assert a[..0] == b[..0];
        } else {
          var i :| 0 <= i <= |a[1..]| && i < |b[1..]| && a[1..][..i] == b[1..][..i] && (i < |a[1..]| ==> a[1..][i] < b[1..][i]);
          assert a[..i + 1] == [a[0]] + a[1..][..i] && b[..i + 1] == [b[0]] + b[1..][..i];
        }
      }
      if BytesLess(a, b) {
        LessStarts(a, b);
      }
    }
  }

  lemma {:induction false} LessStarts(a: Bytes, b: Bytes)
    requires a != [] && b != [] && BytesLess(a, b)
    ensures a[0] < b[0] || (a[0] == b[0] && BytesLess(a[1..], b[1..]))
  {
    var i :| 0 <= i <= |a| && i < |b| && a[..i] == b[..i] && (i < |a| ==> a[i] < b[i]);
    if i > 0 {
      assert a[0] == a[..i][0] == b[..i][0] == b[0];
      assert a[1..][..i - 1] == a[..i][1..] == b[..i][1..] == b[1..][..i - 1];
    }
  }
}
