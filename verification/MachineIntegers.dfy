/** Ranges of the fixed-width integers and the division that truncates toward zero. */
module MachineIntegers {

  const I128_MAX: int := 0x7FFF_FFFF_FFFF_FFFF_FFFF_FFFF_FFFF_FFFF
  const I128_MIN: int := -0x8000_0000_0000_0000_0000_0000_0000_0000
  const I64_MAX: int := 0x7FFF_FFFF_FFFF_FFFF
  const I64_MIN: int := -0x8000_0000_0000_0000
  const U64_MAX: int := 0xFFFF_FFFF_FFFF_FFFF

  predicate IsI128(x: int) {
    I128_MIN <= x <= I128_MAX
  }

  predicate IsI64(x: int) {
    I64_MIN <= x <= I64_MAX
  }

  predicate IsU64(x: int) {
    0 <= x <= U64_MAX
  }

  const I32_MAX: int := 0x7FFF_FFFF
  const I32_MIN: int := -0x8000_0000
  const U32_MAX: int := 0xFFFF_FFFF

  type byte = x: int | 0 <= x < 256
  type i32 = x: int | I32_MIN <= x <= I32_MAX
  type i128 = x: int | I128_MIN <= x <= I128_MAX
  type i64 = x: int | I64_MIN <= x <= I64_MAX
  type u64 = x: int | 0 <= x <= U64_MAX

  type Bytes = seq<byte>

  function Abs(x: int): nat {
    if x < 0 then -x else x
  }

  function Sign(x: int): int {
    if x < 0 then -1 else if x == 0 then 0 else 1
  }

  function Min(x: int, y: int): int {
    if x <= y then x else y
  }

  function Max(x: int, y: int): int {
    if x >= y then x else y
  }

  function Power10(n: nat): (p: nat)
    ensures p > 0
  {
    if n == 0 then 1 else 10 * Power10(n - 1)
  }

  /** `/` on signed machine integers: the quotient truncated toward zero. */
  function TruncDiv(n: int, d: int): int
    requires d > 0
  {
    if n >= 0 then n / d else -((-n) / d)
  }

  /** `%` on signed machine integers: the remainder takes the sign of the dividend. */
  function TruncRem(n: int, d: int): int
    requires d > 0
  {
    n - d * TruncDiv(n, d)
  }

  lemma {:induction false} Divides(n: int, d: int, q: int, r: int)
    requires n == q * d + r && 0 <= r < d
    ensures n / d == q && n % d == r
  {
    var k := n / d - q;
    assert n == d * (n / d) + n % d && 0 <= n % d < d;
    assert d * (n / d) == d * k + q * d;
    if k >= 1 {
      ScaleUp(d, 1, k);
    } else if k <= -1 {
      ScaleUp(d, k, -1);
    }
  }

  lemma {:induction false} CancelFactor(k: int, a: int, b: int)
    requires k > 0 && k * a == k * b
    ensures a == b
  {
    Divides(k * a, k, a, 0);
    Divides(k * b, k, b, 0);
  }

  lemma {:induction false} TimesTen(a: nat, p: nat)
    ensures a * (10 * p) == 10 * (a * p)
  {
  }

  lemma {:induction false} Power10Adds(a: nat, b: nat)
    ensures Power10(a + b) == Power10(a) * Power10(b)
    decreases b
  {
    if b > 0 {
      Power10Adds(a, b - 1);
      TimesTen(Power10(a), Power10(b - 1));
    }
  }

  lemma {:induction false} ScaleUp(d: int, a: int, b: int)
    requires d > 0 && a <= b
    ensures d * a <= d * b
  {
  }
}
