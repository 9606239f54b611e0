/** Fixed-width big-endian integers, written in front of the bytes that follow them. */
module BigEndian {
  import opened MachineIntegers

  function Pow256(width: nat): nat {
    if width == 0 then 1 else 256 * Pow256(width - 1)
  }

  /** `n` in `width` bytes, then `rest`. */
  function PutNat(n: nat, width: nat, rest: Bytes): Bytes
    requires n < Pow256(width)
    decreases width
  {
    if width == 0 then rest else PutNat(n / 256, width - 1, [n % 256] + rest)
  }

  function NatOf(bytes: Bytes): nat {
    if bytes == [] then 0 else 256 * NatOf(bytes[..|bytes| - 1]) + bytes[|bytes| - 1]
  }

  lemma {:induction false} PutNatShape(n: nat, width: nat, rest: Bytes)
    requires n < Pow256(width)
    ensures var bytes := PutNat(n, width, rest);
      |bytes| == width + |rest| && bytes[width..] == rest && NatOf(bytes[..width]) == n
    decreases width
  {
    if width > 0 {
      PutNatShape(n / 256, width - 1, [n % 256] + rest);
      var bytes := PutNat(n, width, rest);
      assert bytes[width - 1..] == [n % 256] + rest;
      assert bytes[width - 1] == bytes[width - 1..][0];
      assert bytes[width..] == bytes[width - 1..][1..];
      assert bytes[..width][..width - 1] == bytes[..width - 1];
    }
  }

  lemma {:induction false} NatOfBounds(bytes: Bytes)
    ensures NatOf(bytes) < Pow256(|bytes|)
  {
    if bytes != [] {
      NatOfBounds(bytes[..|bytes| - 1]);
    }
  }

  lemma {:induction false} NatOfPuts(bytes: Bytes, rest: Bytes)
    ensures NatOf(bytes) < Pow256(|bytes|) && PutNat(NatOf(bytes), |bytes|, rest) == bytes + rest
    decreases |bytes|
  {
    NatOfBounds(bytes);
    if bytes != [] {
      var init, last := bytes[..|bytes| - 1], bytes[|bytes| - 1];
      NatOfPuts(init, [last] + rest);
      assert NatOf(bytes) / 256 == NatOf(init) && NatOf(bytes) % 256 == last;
      assert init + ([last] + rest) == bytes + rest;
    }
  }

  /** Two's complement. */
  function Unsigned(x: int, width: nat): nat
    requires -(Pow256(width) as int) <= 2 * x < Pow256(width)
  {
    if x < 0 then x + Pow256(width) else x
  }

  function Signed(n: nat, width: nat): int {
    if 2 * n < Pow256(width) then n else n - Pow256(width)
  }

  lemma {:induction false} Widths()
    ensures Pow256(1) == 0x100 && Pow256(2) == 0x1_0000 && Pow256(4) == 0x1_0000_0000
    ensures Pow256(8) == 0x1_0000_0000_0000_0000 && Pow256(16) == 0x1_0000_0000_0000_0000_0000_0000_0000_0000
  {
    assert Pow256(3) == 0x100_0000;
    assert Pow256(5) == 0x100_0000_0000 && Pow256(6) == 0x1_0000_0000_0000 && Pow256(7) == 0x100_0000_0000_0000;
    assert Pow256(9) == 0x100_0000_0000_0000_0000 && Pow256(10) == 0x1_0000_0000_0000_0000_0000;
    assert Pow256(12) == 0x1_0000_0000_0000_0000_0000_0000 by { assert Pow256(11) == 0x100_0000_0000_0000_0000_0000; }
    assert Pow256(14) == 0x1_0000_0000_0000_0000_0000_0000_0000 by { assert Pow256(13) == 0x100_0000_0000_0000_0000_0000_0000; }
    assert Pow256(15) == 0x100_0000_0000_0000_0000_0000_0000_0000;
  }
}
