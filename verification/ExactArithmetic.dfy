/**
 Exact fixed-point arithmetic of the ledger: the loop that finds a greatest common
 divisor, the product of two decimals cancelled before it is multiplied out, and the
 rounding of a charge. A decimal is its count of 10^-18 atoms.
 */
module ExactArithmetic {
  import opened Wrappers
  import opened MachineIntegers
  import opened MarketTypes
  import opened AccountingErrors

  const SCALE: int := 1_000_000_000_000_000_000

  function Checked(x: int): Result<i128, AccountingError> {
    if IsI128(x) then Ok(x) else Err(Overflow)
  }

  // ---------------------------------------------------------------- divisors

  function Gcd(left: nat, right: nat): (g: nat)
    ensures left > 0 || right > 0 ==> g > 0
    decreases right
  {
    if right == 0 then left else Gcd(right, left % right)
  }

  /** The loop of the source; the recursion above is its meaning. */
  method EuclideanGcd(left: nat, right: nat) returns (g: nat)
    ensures g == Gcd(left, right)
  {
    var l, r := left, right;
    while r != 0
      invariant Gcd(l, r) == Gcd(left, right)
      decreases r
    {
      l, r := r, l % r;
    }
    g := l;
  }

  /** The quotients by the common divisor and the Bezout coefficients. */
  lemma {:induction false} GcdBezout(left: nat, right: nat) returns (l: nat, r: nat, x: int, y: int)
    requires left > 0 || right > 0
    ensures left == Gcd(left, right) * l && right == Gcd(left, right) * r
    ensures x * l + y * r == 1
    decreases right
  {
    if right == 0 {
      l, r, x, y := 1, 0, 1, 0;
    } else {
      var q, rest := DivisionStep(left, right);
      var g := Gcd(right, rest);
      var r1, m, x1, y1 := GcdBezout(right, rest);
      BezoutStep(g, left, right, q, rest, r1, m, x1, y1);
      l, r, x, y := q * r1 + m, r1, y1, x1 - q * y1;
    }
  }

  lemma {:induction false} DivisionStep(left: nat, right: nat) returns (q: nat, rest: nat)
    requires right > 0
    ensures rest < right && left == right * q + rest && Gcd(left, right) == Gcd(right, rest)
  {
    q, rest := left / right, left % right;
  }

  lemma {:induction false} BezoutStep(g: nat, left: nat, right: nat, q: nat, rest: nat, r: nat, m: nat, x: int, y: int)
    requires left == right * q + rest && right == g * r && rest == g * m && x * r + y * m == 1
    ensures y * (q * r + m) + (x - q * y) * r == 1
    ensures left == g * (q * r + m)
  {
    assert y * (q * r) == (q * y) * r;
    assert g * (q * r) == (g * r) * q;
  }

  /** Gcd is the greatest common divisor: it divides both, and every common divisor is at most it. */
  lemma {:induction false} GcdIsGreatest(left: nat, right: nat, d: nat, a: nat, b: nat)
    requires left > 0 || right > 0
    requires left == d * a && right == d * b
    ensures left % Gcd(left, right) == 0 && right % Gcd(left, right) == 0
    ensures d <= Gcd(left, right)
  {
    var g := Gcd(left, right);
    var l, r, x, y := GcdBezout(left, right);
    MultipleModulus(g, l);
    MultipleModulus(g, r);
    CombineMultiples(g, l, r, x, y, d, a, b);
    if x * a + y * b <= 0 {
      SignOfProduct(d, x * a + y * b);
      assert false;
    }
    ProductAtLeastFactor(d, x * a + y * b);
  }

  lemma {:induction false} CombineMultiples(g: int, l: int, r: int, x: int, y: int, d: int, a: int, b: int)
    requires g * l == d * a && g * r == d * b && x * l + y * r == 1
    ensures g == d * (x * a + y * b)
  {
    assert g * (x * l + y * r) == x * (g * l) + y * (g * r);
    assert d * (x * a + y * b) == x * (d * a) + y * (d * b);
  }

  lemma {:induction false} SignOfProduct(d: nat, k: int)
    requires k <= 0
    ensures d * k <= 0
  {
  }

  lemma {:induction false} ProductAtLeastFactor(d: nat, k: int)
    requires k >= 1
    ensures d * k >= d
  {
    assert d * k == d + d * (k - 1);
  }

  lemma {:induction false} MultipleModulus(d: int, k: int)
    requires d > 0
    ensures (d * k) % d == 0 && (d * k) / d == k
  {
    Divides(d * k, d, k, 0);
  }

  // ------------------------------------------------------ cancelled product

  /** What is left of `left * right / denominator` once both common divisors are cancelled. */
  datatype Cancelled = Cancelled(left: int, right: int, denominator: int)

  function Cancel(left: int, right: int, denominator: int): Cancelled
    requires denominator > 0
  {
    var first := Gcd(Abs(left), denominator);
    var left1 := TruncDiv(left, first);
    var denominator1 := denominator / first;
    GcdDivides(left, denominator);
    var second := Gcd(Abs(right), denominator1);
    GcdDivides(right, denominator1);
    Cancelled(left1, TruncDiv(right, second), denominator1 / second)
  }

  /** Dividing by the common divisor is exact, and leaves coprime numbers. */
  lemma {:induction false} GcdCancels(n: int, d: int) returns (x: int, y: int)
    requires d > 0
    ensures var g := Gcd(Abs(n), d);
      && g > 0 && d / g > 0 && g * (d / g) == d
      && g * TruncDiv(n, g) == n
      && x * TruncDiv(n, g) + y * (d / g) == 1
  {
    var g := Gcd(Abs(n), d);
    var l, r, a, b := GcdBezout(Abs(n), d);
    MultipleModulus(g, r);
    MultipleModulus(g, l);
    if r <= 0 { SignOfProduct(g, r); assert false; }
    if n >= 0 {
      x, y := a, b;
    } else {
      x, y := -a, b;
      assert -a * -(l as int) == a * l;
    }
  }

  lemma {:induction false} GcdDivides(n: int, d: int)
    requires d > 0
    ensures Gcd(Abs(n), d) > 0 && d / Gcd(Abs(n), d) > 0
  {
    var _, _ := GcdCancels(n, d);
  }

  /** The cancelled fraction is the original one, and is integral only if its denominator is 1. */
  lemma {:induction false} CancelKeepsFraction(left: int, right: int, denominator: int)
    requires denominator > 0
    ensures var c := Cancel(left, right, denominator);
      && 0 < c.denominator <= denominator
      && (exists k :: 0 < k && Scales(k, left * right, c.left * c.right) && Scales(k, denominator, c.denominator))
      && ((left * right) % denominator == 0 <==> c.denominator == 1)
      && ((c.left * c.right) % c.denominator == 0 <==> c.denominator == 1)
  {
    var c := Cancel(left, right, denominator);
    var d1 := denominator / Gcd(Abs(left), denominator);
    var x, y := GcdCancels(left, denominator);
    var u, v := GcdCancels(right, d1);
    var g1, g2 := Gcd(Abs(left), denominator), Gcd(Abs(right), d1);
    var k, p := g1 * g2, c.left * c.right;
    ProductAtLeastFactor(g1, g2);
    Regroup(g1, c.left, g2, c.right);
    Regroup(g1, 1, g2, c.denominator);
    assert Scales(k, left * right, p) && Scales(k, denominator, c.denominator);
    ProductAtLeastFactor(c.denominator, k);
    ExtendCoprime(x, c.left, y, g2, c.denominator, d1);
    if p % c.denominator == 0 {
      CoprimeDivisor(c.left, c.right, c.denominator, x, y * g2, u, v);
    }
    if (left * right) % denominator == 0 {
      ScaledDivides(k, left * right, denominator, p, c.denominator);
    }
    if c.denominator == 1 {
      MultipleModulus(denominator, p);
    }
  }

  lemma {:induction false} ExtendCoprime(x: int, l: int, y: int, g: int, e: int, d: int)
    requires x * l + y * d == 1 && g * e == d
    ensures x * l + (y * g) * e == 1
  {
    assert y * (g * e) == (y * g) * e;
  }

  lemma {:induction false} ScaledDivides(k: int, n: int, d: int, p: int, e: int)
    requires k > 0 && d > 0 && e > 0 && Scales(k, n, p) && Scales(k, d, e) && n % d == 0
    ensures p % e == 0
  {
    var q := n / d;
    Regroup(k, e, 1, q);
    CancelFactor(k, p, e * q);
    MultipleModulus(e, q);
  }

  lemma {:induction false} Regroup(a: int, b: int, c: int, d: int)
    ensures (a * b) * (c * d) == (a * c) * (b * d)
  {
    assert (a * b) * (c * d) == a * (b * (c * d));
    assert (a * c) * (b * d) == a * (c * (b * d));
    assert b * (c * d) == c * (b * d);
  }

  ghost predicate Scales(k: int, whole: int, part: int) {
    whole == k * part
  }

  /** A number coprime to both factors divides their product only if it is 1. */
  lemma {:induction false} CoprimeDivisor(l: int, r: int, d: int, x: int, y: int, u: int, v: int)
    requires d > 0 && (l * r) % d == 0
    requires x * l + y * d == 1 && u * r + v * d == 1
    ensures d == 1
  {
    var q := (l * r) / d;
    var w := x * u * q + x * l * v + y;
    calc {
      1;
      (x * l) * (u * r + v * d) + y * d;
      (x * l) * (u * r) + (x * l) * (v * d) + y * d;
      { Regroup(x, l, u, r); Regroup(x * u, 1, d, q); assert l * r == d * q; }
      d * (x * u * q) + (x * l) * (v * d) + y * d;
      { assert (x * l) * (v * d) == d * (x * l * v); }
      d * (x * u * q) + d * (x * l * v) + d * y;
      d * w;
    }
    OneHasNoDivisor(d, w);
  }

  lemma {:induction false} OneHasNoDivisor(d: int, k: int)
    requires d > 0 && d * k == 1
    ensures d == 1
  {
    if k <= 0 { SignOfProduct(d, k); assert false; }
    ProductAtLeastFactor(d, k);
  }

  function MultiplyDecimalAtoms(left: int, right: int): Result<int, AccountingError> {
    var c := Cancel(left, right, SCALE);
    CancelKeepsFraction(left, right, SCALE);
    var product :- Checked(c.left * c.right);
    if TruncRem(product, c.denominator) != 0 then Err(PrecisionLoss) else Ok(TruncDiv(product, c.denominator))
  }

  /** Cancelling first loses nothing: the product succeeds exactly when 10^18 divides it and
      the quotient is representable, and it is then that quotient. */
  lemma {:induction false} MultiplyDecimalAtomsExact(left: int, right: int)
    ensures var r := MultiplyDecimalAtoms(left, right);
      && (r.Ok? <==> (left * right) % SCALE == 0 && IsI128((left * right) / SCALE))
      && (r.Ok? ==> SCALE * r.value == left * right && IsI128(r.value))
      && (r == Err(PrecisionLoss) ==> (left * right) % SCALE != 0)
      && ((left * right) % SCALE == 0 && r.Err? ==> r.error == Overflow)
  {
    var c := Cancel(left, right, SCALE);
    CancelKeepsFraction(left, right, SCALE);
    var k :| 0 < k && Scales(k, left * right, c.left * c.right) && Scales(k, SCALE, c.denominator);
    var p := c.left * c.right;
    if c.denominator == 1 {
      assert SCALE == k;
      MultipleModulus(SCALE, p);
    } else {
      assert p % c.denominator != 0;
      TruncRemZero(p, c.denominator);
    }
  }

  lemma {:induction false} TruncRemZero(n: int, d: int)
    requires d > 0
    ensures TruncRem(n, d) == 0 <==> n % d == 0
    ensures TruncRem(n, d) == 0 ==> d * TruncDiv(n, d) == n
  {
    if n < 0 {
      var q := TruncDiv(n, d);
      if n % d == 0 {
        assert -n == d * -(n / d);
        MultipleModulus(d, -(n / d));
      }
      if TruncRem(n, d) == 0 {
        MultipleModulus(d, q);
      }
    }
  }

  // ---------------------------------------------------------------- rounding

  datatype RoundingPolicy = Down | HalfUp | Up

  /** Twice a 128-bit magnitude, as 128 bits hold it: past the largest value it wraps. */
  function Doubled(x: nat): int
    requires x <= I128_MAX
  {
    if 2 * x <= I128_MAX then 2 * x else 2 * x - 0x1_0000_0000_0000_0000_0000_0000_0000_0000
  }

  /** Truncates, then adds one. */
  function DivideRound(numerator: int, denominator: int, policy: RoundingPolicy): Result<int, AccountingError>
    requires 0 < denominator <= I128_MAX
  {
    var quotient, remainder := TruncDiv(numerator, denominator), TruncRem(numerator, denominator);
    TruncRemBounds(numerator, denominator);
    if remainder == 0 then Ok(quotient)
    else match policy
      case Down => Ok(quotient)
      case Up => Checked(quotient + 1)
      case HalfUp => if Doubled(Abs(remainder)) >= denominator then Checked(quotient + 1) else Ok(quotient)
  }

  /** What a policy asks of a quotient: the floor, the ceiling, or the nearest with ties upwards. */
  ghost predicate Rounds(policy: RoundingPolicy, n: int, d: int, q: int) {
    LeavesRemainder(policy, n - q * d, d)
  }

  ghost predicate LeavesRemainder(policy: RoundingPolicy, r: int, d: int) {
    match policy
    case Down => 0 <= r < d
    case Up => -d < r <= 0
    case HalfUp => -d <= 2 * r < d
  }

  lemma {:induction false} RoundsUnique(policy: RoundingPolicy, n: int, d: int, q: int, q1: int)
    requires d > 0 && Rounds(policy, n, d, q) && Rounds(policy, n, d, q1)
    ensures q == q1
  {
    assert (q - q1) * d == q * d - q1 * d;
    SmallMultiple(q - q1, d);
  }

  lemma {:induction false} SmallMultiple(k: int, d: nat)
    requires d > 0 && 0 < k * d + d && k * d < d
    ensures k == 0
  {
    if k >= 1 {
      ProductAtLeastFactor(d, k);
    } else if k <= -1 {
      ProductAtLeastFactor(d, -k);
    }
  }

  /** `divide_round` is its policy's rounding exactly when the division is exact, the numerator is not
      negative and twice a half-up remainder fits 128 bits, or a half-up remainder is below one half. */
  lemma {:induction false} DivideRoundMeetsPolicy(n: int, d: int, policy: RoundingPolicy)
    requires 0 < d <= I128_MAX
    ensures var r := DivideRound(n, d, policy);
      r.Ok? ==> (Rounds(policy, n, d, r.value)
                 <==> n % d == 0
                      || (n >= 0 && (policy == HalfUp ==> 2 * Abs(TruncRem(n, d)) <= I128_MAX))
                      || (policy == HalfUp && 2 * Abs(TruncRem(n, d)) < d))
    ensures n >= 0 && n < I128_MAX ==> DivideRound(n, d, policy).Ok?
    ensures n >= 0 && DivideRound(n, d, policy).Ok? ==> DivideRound(n, d, policy).value >= 0
    ensures n >= 0 && DivideRound(n, d, policy).Ok? ==> -d < n - DivideRound(n, d, policy).value * d < d
  {
    var q, r := TruncDiv(n, d), TruncRem(n, d);
    TruncRemZero(n, d);
    TruncRemBounds(n, d);
    assert q * d == d * q && (q + 1) * d == d * q + d;
    assert forall v :: Rounds(policy, n, d, v) <==> LeavesRemainder(policy, n - v * d, d);
    if n >= 0 {
      QuotientAtMost(n, d);
    }
  }

  /** Up to 10^18 nothing wraps. */
  lemma {:induction false} SmallDenominator(n: nat, d: int, policy: RoundingPolicy)
    requires 0 < d <= SCALE
    ensures DivideRound(n, d, policy).Ok? ==> Rounds(policy, n, d, DivideRound(n, d, policy).value) && DivideRound(n, d, policy).value >= 0
    ensures n < I128_MAX ==> DivideRound(n, d, policy).Ok?
  {
    DivideRoundMeetsPolicy(n, d, policy);
    TruncRemBounds(n, d);
  }

  lemma {:induction false} TruncRemBounds(n: int, d: int)
    requires d > 0
    ensures if n >= 0 then 0 <= TruncRem(n, d) < d else -d < TruncRem(n, d) <= 0
  {
    if n < 0 {
      assert d * -((-n) / d) == -(d * ((-n) / d));
    }
  }

  lemma {:induction false} QuotientAtMost(n: nat, d: int)
    requires d > 0
    ensures 0 <= n / d <= n
  {
    if n / d > 0 {
      assert n / d + (d - 1) * (n / d) == d * (n / d);
      SignOfProduct(d - 1, -(n / d));
      assert (d - 1) * -(n / d) == -((d - 1) * (n / d));
    }
  }

  /** A negative signed-spread basis shows the failure: -7/4 rounded "up" gives 0, two above the floor. */
  lemma {:induction false} NegativeNumeratorCounterexample()
    ensures DivideRound(-7, 4, Up) == Ok(0) && !Rounds(Up, -7, 4, 0) && Rounds(Up, -7, 4, -1)
    ensures DivideRound(-7, 4, HalfUp) == Ok(0) && !Rounds(HalfUp, -7, 4, 0) && Rounds(HalfUp, -7, 4, -2)
  {
  }

  lemma {:induction false} RoundsScaled(policy: RoundingPolicy, k: int, n: int, d: int, q: int)
    requires k > 0
    ensures Rounds(policy, k * n, k * d, q) <==> Rounds(policy, n, d, q)
  {
    var e := n - q * d;
    assert k * n - q * (k * d) == k * e;
    assert k * (d - e) == k * d - k * e && k * (d + e) == k * d + k * e;
    assert k * (d - 2 * e) == k * d - 2 * (k * e) && k * (d + 2 * e) == k * d + 2 * (k * e);
    SameSign(k, e);
    SameSign(k, d - e);
    SameSign(k, d + e);
    SameSign(k, d - 2 * e);
    SameSign(k, d + 2 * e);
  }

  lemma {:induction false} SameSign(k: int, x: int)
    requires k > 0
    ensures (k * x > 0 <==> x > 0) && (k * x < 0 <==> x < 0)
  {
    if x > 0 {
      ProductAtLeastFactor(k, x);
    } else if x < 0 {
      ProductAtLeastFactor(k, -x);
      assert k * -x == -(k * x);
    }
  }

  /** Two roundings in a row, to `a` and then to `u`, are one rounding for `Down` and `Up`; for
      `HalfUp` they are one exactly unless the first rounded up onto the second's tie. */
  lemma {:induction false} TwoRoundings(policy: RoundingPolicy, n: int, s: int, a: int, q: int, u: int)
    requires s > 0 && q > 0 && Rounds(policy, n, s, a) && Rounds(policy, a, q, u)
    ensures Rounds(policy, n, s * q, u) <==> !(policy == HalfUp && n < a * s && 2 * (u * q - a) == q)
  {
    var t, e := a - u * q, n - a * s;
    assert s * t == s * a - s * (u * q);
    assert s * (u * q) == u * (s * q);
    ComposedRemainder(policy, s, q, t, e);
  }

  lemma {:induction false} ComposedRemainder(policy: RoundingPolicy, s: int, q: int, t: int, e: int)
    requires s > 0 && q > 0 && LeavesRemainder(policy, e, s) && LeavesRemainder(policy, t, q)
    ensures LeavesRemainder(policy, s * t + e, s * q) <==> !(policy == HalfUp && e < 0 && -2 * t == q)
  {
    assert s * (q - 1) == s * q - s && s * (1 - q) == s - s * q && s * -q == -(s * q);
    match policy
    case Down =>
      ScaledBelow(s, t, q - 1);
      ScaledBelow(s, 0, t);
    case Up =>
      ScaledBelow(s, 1 - q, t);
      ScaledBelow(s, t, 0);
    case HalfUp =>
      assert s * (2 * t) == 2 * (s * t);
      ScaledBelow(s, 2 * t, q - 1);
      if 2 * t > -q {
        ScaledBelow(s, 1 - q, 2 * t);
      }
  }

  lemma {:induction false} ScaledBelow(s: int, x: int, y: int)
    requires s > 0 && x <= y
    ensures s * x <= s * y
  {
    assert s * (x - y) == s * x - s * y;
    SignOfProduct(s, x - y);
  }

  // ----------------------------------------------------------------- charges

  datatype ChargeSides = BuyOnly | SellOnly | BothSides
  datatype ChargeBasis = NotionalRate | FixedPerUnit
  datatype ChargeModel = ChargeModel(basis: ChargeBasis, rate: int, sides: ChargeSides, minimum: int,
                                     precision: nat, rounding: RoundingPolicy)

  predicate ValidCharge(model: ChargeModel) {
    model.rate >= 0 && model.minimum >= 0 && model.precision <= 18 && IsI128(model.rate) && IsI128(model.minimum)
  }

  predicate Applies(sides: ChargeSides, side: OrderSide) {
    sides == BothSides || (sides == BuyOnly && side == Buy) || (sides == SellOnly && side == Sell)
  }

  function Quantum(model: ChargeModel): int
    requires ValidCharge(model)
  {
    Power10(18 - model.precision)
  }

  function ChargedBase(notional: int, quantity: nat, model: ChargeModel): int {
    match model.basis
    case NotionalRate => Abs(notional)
    case FixedPerUnit => quantity * SCALE
  }

  function Charge(notional: int, quantity: nat, side: OrderSide, model: ChargeModel): Result<int, AccountingError>
    requires ValidCharge(model)
  {
    if !Applies(model.sides, side) then Ok(0) else
    var left :- Checked(ChargedBase(notional, quantity, model));
    var c := Cancel(left, model.rate, SCALE);
    CancelKeepsFraction(left, model.rate, SCALE);
    Power10AtMost(18 - model.precision);
    var product :- Checked(c.left * c.right);
    var raw :- DivideRound(product, c.denominator, model.rounding);
    var units :- DivideRound(raw, Quantum(model), model.rounding);
    var rounded :- Checked(units * Quantum(model));
    Ok(Max(rounded, model.minimum))
  }

  /** A charge is its base times its rate over 10^18, rounded by its policy to atoms, then to
      the quantum, then raised to the minimum. Cancelling first makes it succeed wherever the
      uncancelled product is representable; its one failure is overflow. */
  lemma {:induction false} ChargeRefinesDirectForm(notional: int, quantity: nat, side: OrderSide, model: ChargeModel)
    requires ValidCharge(model) && Applies(model.sides, side)
    ensures var r, base := Charge(notional, quantity, side, model), ChargedBase(notional, quantity, model);
      && (r.Ok? ==> exists atoms, units ::
            && Rounds(model.rounding, base * model.rate, SCALE, atoms)
            && Rounds(model.rounding, atoms, Quantum(model), units)
            && r.value == Max(units * Quantum(model), model.minimum) && r.value >= 0)
      && (r.Err? ==> r.error == Overflow)
      && (IsI128(base) && IsI128(base * model.rate) ==> r.Ok?)
  {
    var base := ChargedBase(notional, quantity, model);
    var c := Cancel(base, model.rate, SCALE);
    CancelKeepsFraction(base, model.rate, SCALE);
    var k :| 0 < k && Scales(k, base * model.rate, c.left * c.right) && Scales(k, SCALE, c.denominator);
    var product := c.left * c.right;
    ProductNonNegative(base, model.rate);
    SameSign(k, product);
    ProductAtMost(k, product);
    Power10AtMost(18 - model.precision);
    RoundTwice(k, product, c.denominator, Quantum(model), model.rounding);
    if IsI128(product) {
      DivideRoundSmall(product, c.denominator, model.rounding);
    }
  }

  /** The two roundings of a charge on a fraction `product / d` that stands for `k * product / SCALE`. */
  lemma {:induction false} RoundTwice(k: int, product: nat, d: int, quantum: int, policy: RoundingPolicy)
    requires k > 0 && 0 < d <= SCALE && k * d == SCALE && 0 < quantum <= SCALE
    ensures var raw := DivideRound(product, d, policy);
      raw.Ok? ==>
        && Rounds(policy, k * product, SCALE, raw.value) && raw.value >= 0
        && (k * product <= I128_MAX ==>
             DivideRound(raw.value, quantum, policy).Ok? && IsI128(DivideRound(raw.value, quantum, policy).value * quantum))
        && (DivideRound(raw.value, quantum, policy).Ok? ==>
             Rounds(policy, raw.value, quantum, DivideRound(raw.value, quantum, policy).value))
  {
    SmallDenominator(product, d, policy);
    var raw := DivideRound(product, d, policy);
    if raw.Ok? {
      RoundsScaled(policy, k, product, d, raw.value);
      SmallDenominator(raw.value, quantum, policy);
      if DivideRound(raw.value, quantum, policy).Ok? {
        ProductNonNegative(DivideRound(raw.value, quantum, policy).value, quantum);
      }
    }
  }

  lemma {:induction false} DivideRoundSmall(n: nat, d: int, policy: RoundingPolicy)
    requires 0 < d <= I128_MAX && IsI128(n)
    ensures DivideRound(n, d, policy).Ok?
  {
    if d > 1 && n > 1 {
      var q := n / d;
      assert d * q == (d - 2) * q + 2 * q;
      QuotientAtMost(n, d);
      ProductNonNegative(d - 2, q);
    } else if d == 1 {
      assert n / 1 == n;
    } else {
      QuotientAtMost(n, d);
    }
  }

  lemma {:induction false} Power10AtMost(n: nat)
    requires n <= 18
    ensures Power10(n) <= SCALE
  {
    assert Power10(18) == SCALE by {
      assert Power10(6) == 1_000_000;
      assert Power10(12) == 1_000_000_000_000;
    }
    Power10Monotone(n, 18);
  }

  lemma {:induction false} Power10Monotone(m: nat, n: nat)
    requires m <= n
    ensures Power10(m) <= Power10(n)
    decreases n - m
  {
    if m < n {
      Power10Monotone(m, n - 1);
    }
  }

  lemma {:induction false} ProductNonNegative(a: int, b: int)
    requires a >= 0 && b >= 0
    ensures a * b >= 0
  {
  }

  lemma {:induction false} ProductAtMost(k: int, p: int)
    requires k > 0 && p >= 0
    ensures p <= k * p
  {
    ProductNonNegative(k - 1, p);
    assert (k - 1) * p == k * p - p;
  }
}
