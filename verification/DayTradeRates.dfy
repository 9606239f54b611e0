/** Where the day-trade part is not cut off to whole ordinary quanta: the rates at which it still never costs more. */
module DayTradeRates {
  import opened Wrappers
  import opened MachineIntegers
  import opened ExactArithmetic
  import opened PositionAccounting
  import opened DayTradeTax
  import opened DayTradeFifo
  import opened DayTradeSavings

  /** No minimum charges, and an ordinary tax that is cut off. */
  predicate CutOffWithoutMinimum(m: TaxModel) {
    m.dayTrade.minimum == 0 && m.ordinary.minimum == 0 && m.ordinary.rounding == Down
  }

  /** The least base that owes a day-trade quantum when the part is cut off. */
  function FirstBase(m: TaxModel): nat
    requires ValidTaxModel(m) && m.dayTrade.rate > 0
  {
    RoundedUp(SCALE * Quantum(m.dayTrade), m.dayTrade.rate)
  }

  function RoundedUp(n: nat, d: nat): (q: nat)
    requires d > 0
    ensures q * d >= n && (q - 1) * d < n
  {
    RoundedUpBounds(n, d);
    (n + d - 1) / d
  }

  lemma {:induction false} RoundedUpBounds(n: nat, d: nat)
    requires d > 0
    ensures var q := (n + d - 1) / d; q >= 0 && q * d >= n && (q - 1) * d < n
  {
    var q := (n + d - 1) / d;
    assert n + d - 1 == d * q + (n + d - 1) % d;
    assert (q - 1) * d == q * d - d;
  }

  /** It owes an ordinary quantum too. */
  predicate FirstIsCovered(m: TaxModel)
    requires ValidTaxModel(m) && m.dayTrade.rate > 0
  {
    FirstBase(m) * m.ordinary.rate >= SCALE * Quantum(m.ordinary)
  }

  // ------------------------------------------------------- covered first, covered always

  /** In whole quanta: `x` is the first quantum at the finer rate, `m * x` at the coarser one. */
  lemma {:induction false} LaterAreCovered(first: nat, base: nat, r1: nat, r0: nat, x: nat, m: nat, n: nat)
    requires 0 < r1 <= x && r1 <= r0 && m >= 4
    requires first * r1 >= x && (first - 1) * r1 < x && first * r0 >= m * x
    requires base * r1 >= (n * m + 1) * x
    ensures base * r0 >= (n + 1) * (m * x)
  {
    if n == 0 {
      FirstIsLeast(first, base, r1, x);
      ProductNonNegative(base - first, r0);
      assert (base - first) * r0 == base * r0 - first * r0;
    } else {
      RateIsDouble(first, r1, r0, x, m);
      ProductNonNegative(base, r0 - 2 * r1);
      assert base * (r0 - 2 * r1) == base * r0 - 2 * (base * r1);
      EnoughTwice(n, m, x);
    }
  }

  lemma {:induction false} FirstIsLeast(first: int, base: int, r1: int, x: int)
    requires r1 > 0 && (first - 1) * r1 < x && base * r1 >= x
    ensures base >= first
  {
    if base <= first - 1 {
      ScaledBelow(r1, base, first - 1);
      assert false;
    }
  }

  lemma {:induction false} RateIsDouble(first: nat, r1: nat, r0: nat, x: nat, m: nat)
    requires 0 < r1 <= x && m >= 4
    requires (first - 1) * r1 < x && first * r0 >= m * x
    ensures r0 >= 2 * r1
  {
    assert (first - 1) * r1 == first * r1 - r1;
    assert (m - 4) * x == m * x - 4 * x;
    assert first * (2 * r1 - r0) == 2 * (first * r1) - first * r0;
    ProductNonNegative(m - 4, x);
    if r0 < 2 * r1 {
      ProductNonNegative(first, 2 * r1 - r0);
    }
  }

  lemma {:induction false} EnoughTwice(n: nat, m: nat, x: nat)
    requires n >= 1
    ensures 2 * ((n * m + 1) * x) >= (n + 1) * (m * x)
  {
    ProductNonNegative(n - 1, m);
    assert (n - 1) * m == n * m - m;
    ProductNonNegative(2 * (n * m + 1) - (n + 1) * m, x);
    assert (n + 1) * m == n * m + m;
    assert (2 * (n * m + 1) - (n + 1) * m) * x == 2 * ((n * m + 1) * x) - ((n + 1) * m) * x;
    assert ((n + 1) * m) * x == (n + 1) * (m * x);
  }

  /** On one base the part owes at most the ordinary tax: in numbers, with `k` finer quanta to a coarser one. */
  lemma {:induction false} CoveredUnits(first: nat, base: nat, r1: nat, r0: nat, scale: nat, fine: nat, k: nat, a1: int, u1: int, a: int, u: nat)
    requires 0 < r1 <= scale && r1 <= r0 && fine > 0 && k >= 4
    requires first * r1 >= scale * fine && (first - 1) * r1 < scale * fine && first * r0 >= k * (scale * fine)
    requires Rounds(Down, base * r1, scale, a1) && Rounds(Down, a1, fine, u1)
    requires Rounds(Down, base * r0, scale, a) && Rounds(Down, a, k * fine, u)
    ensures u1 <= u * k
  {
    if u1 >= u * k + 1 {
      OwesAtLeast(base * r1, scale, fine, a1, u1, u * k + 1);
      AtLeastOnce(r1, scale, fine);
      LaterAreCovered(first, base, r1, r0, scale * fine, k, u);
      SomeTax(k, fine);
      OwesBelow(base * r0, scale, k * fine, a, u);
      Swap(k, scale, fine);
      assert false;
    }
  }

  lemma {:induction false} Swap(k: int, scale: int, fine: int)
    ensures k * (scale * fine) == scale * (k * fine)
  {
  }

  lemma {:induction false} CoveredOnOneBase(m: TaxModel, base: nat, a1: int, u1: int, a: int, u: int)
    requires ValidTaxModel(m) && m.dayTrade.rounding == Down && m.ordinary.rounding == Down && 0 < m.dayTrade.rate <= SCALE
    requires m.dayTrade.precision > m.ordinary.precision && FirstIsCovered(m)
    requires RoundsTo(m.dayTrade, base, a1, u1) && RoundsTo(m.ordinary, base, a, u)
    ensures u1 * Quantum(m.dayTrade) <= u * Quantum(m.ordinary)
  {
    var fine := Quantum(m.dayTrade);
    var k := CoarserQuanta(m);
    RoundsToNonNegative(m.ordinary, base, a, u);
    Swap(k, SCALE, fine);
    CoveredUnits(FirstBase(m), base, m.dayTrade.rate, m.ordinary.rate, SCALE, fine, k, a1, u1, a, u);
    Finer(u1, u, k, fine);
  }

  lemma {:induction false} Finer(u1: int, u: int, k: int, fine: int)
    requires u1 <= u * k && fine > 0
    ensures u1 * fine <= u * (k * fine)
  {
    ScaledBelow(fine, u1, u * k);
    assert fine * (u * k) == u * (k * fine);
  }

  lemma {:induction false} AtLeastOnce(rate: int, scale: int, fine: int)
    requires rate <= scale && 1 <= fine && scale > 0
    ensures rate <= scale * fine
  {
    ScaledBelow(scale, 1, fine);
  }

  /** Ordinary quanta are whole numbers, of at least ten, of finer day-trade quanta. */
  lemma {:induction false} CoarserQuanta(m: TaxModel) returns (k: nat)
    requires ValidTaxModel(m) && m.dayTrade.precision > m.ordinary.precision
    ensures k >= 10 && Quantum(m.ordinary) == k * Quantum(m.dayTrade)
  {
    var steps := m.dayTrade.precision - m.ordinary.precision;
    Power10Adds(steps, 18 - m.dayTrade.precision);
    k := Power10(steps);
    assert k == 10 * Power10(steps - 1);
  }

  lemma {:induction false} OwesAtLeast(product: int, scale: int, quantum: int, a: int, u: int, count: nat)
    requires scale > 0 && quantum > 0 && Rounds(Down, product, scale, a) && Rounds(Down, a, quantum, u) && u >= count
    ensures product >= count * (scale * quantum)
  {
    ScaledBelow(quantum, count, u);
    ScaledBelow(scale, count * quantum, a);
    assert scale * (count * quantum) == count * (scale * quantum);
  }

  lemma {:induction false} OwesBelow(product: int, scale: int, quantum: int, a: int, u: int)
    requires scale > 0 && quantum > 0 && Rounds(Down, product, scale, a) && Rounds(Down, a, quantum, u)
    ensures product < (u + 1) * (scale * quantum)
  {
    assert (u + 1) * quantum == u * quantum + quantum;
    ScaledBelow(scale, a + 1, (u + 1) * quantum);
    assert scale * ((u + 1) * quantum) == (u + 1) * (scale * quantum);
  }

  /** A part that owes at most the ordinary tax of its own base, and the rest, owe at most the whole. */
  lemma {:induction false} CutOffAdds(charge: ChargeModel, b1: nat, b0: nat, a1: int, u1: int, a0: int, u0: int, a: int, u: int)
    requires ValidCharge(charge) && charge.rounding == Down
    requires RoundsTo(charge, b1, a1, u1) && RoundsTo(charge, b0, a0, u0) && RoundsTo(charge, b1 + b0, a, u)
    ensures u1 + u0 <= u
  {
    Distributes(b1, b0, charge.rate);
    UnitsAdd(b1 * charge.rate, b0 * charge.rate, (b1 + b0) * charge.rate, SCALE, Quantum(charge), a1, u1, a0, u0, a, u);
  }

  lemma {:induction false} Distributes(a: int, b: int, k: int)
    ensures (a + b) * k == a * k + b * k
  {
  }

  lemma {:induction false} UnitsAdd(p1: int, p0: int, p: int, scale: int, quantum: int, a1: int, u1: int, a0: int, u0: int, a: int, u: int)
    requires scale > 0 && quantum > 0 && p == p1 + p0
    requires Rounds(Down, p1, scale, a1) && Rounds(Down, a1, quantum, u1)
    requires Rounds(Down, p0, scale, a0) && Rounds(Down, a0, quantum, u0)
    requires Rounds(Down, p, scale, a) && Rounds(Down, a, quantum, u)
    ensures u1 + u0 <= u
  {
    RoundsUp(Down, p0, p, scale, a0, a, a1);
    RoundsUp(Down, a0, a, quantum, u0, u, u1);
  }

  lemma {:induction false} QuantaAdd(part: int, own: int, rest: int, whole: int, quantum: int)
    requires quantum > 0 && part <= own * quantum && own + rest <= whole
    ensures part + rest * quantum <= whole * quantum
  {
    Distributes(own, rest, quantum);
    ScaledBelow(quantum, own + rest, whole);
  }

  lemma {:induction false} CutOffExists(charge: ChargeModel, base: nat) returns (a: int, u: int)
    requires ValidCharge(charge) && charge.rounding == Down
    ensures RoundsTo(charge, base, a, u)
  {
    ProductNonNegative(base, charge.rate);
    a := CutOff(base * charge.rate, SCALE);
    u := CutOff(a, Quantum(charge));
  }

  lemma {:induction false} CutOff(n: int, d: int) returns (q: int)
    requires d > 0
    ensures Rounds(Down, n, d, q)
  {
    q := n / d;
    assert n == d * q + n % d;
  }

  lemma {:induction false} CoveredSale(price: int, quantity: nat, matched: nat, e: Economics, m: TaxModel)
    requires ValidTaxModel(m) && CutOffWithoutMinimum(m) && m.dayTrade.rounding == Down && 0 < m.dayTrade.rate <= SCALE
    requires m.dayTrade.precision > m.ordinary.precision && FirstIsCovered(m)
    requires matched <= quantity && SplitSellTax(price, quantity, matched, e, m).Ok? && SplitSellTax(price, quantity, 0, e, m).Ok?
    ensures SplitSellTax(price, quantity, matched, e, m).value <= SplitSellTax(price, quantity, 0, e, m).value
  {
    SplitParts(price, quantity, matched, e, m);
    SplitParts(price, quantity, 0, e, m);
    var b1, a1, u1 := FreePart(price, matched, e, m.dayTrade);
    var b0, a0, u0 := FreePart(price, quantity - matched, e, m.ordinary);
    var b, a, u := FreePart(price, quantity, e, m.ordinary);
    AddBases(Abs(price * Weight(e)), matched, quantity, b1, b0, b);
    var own, ownUnits := CutOffExists(m.ordinary, b1);
    CoveredOnOneBase(m, b1, a1, u1, own, ownUnits);
    CutOffAdds(m.ordinary, b1, b0, own, ownUnits, a0, u0, a, u);
    QuantaAdd(u1 * Quantum(m.dayTrade), ownUnits, u0, u, Quantum(m.ordinary));
  }

  // ------------------------------------------------------------- main results

  /** One unit whose base owes more as a day trade than in full. */
  lemma {:induction false} OneUnitCostsMore(time: i64, base: i128, m: TaxModel, dayTrade: i128, ordinary: i128)
    requires ValidTaxModel(m) && CoveredTime(m, time) && dayTrade > ordinary
    requires PartTax(base, 1, Plain, m.dayTrade) == Ok(dayTrade) && PartTax(base, 1, Plain, m.ordinary) == Ok(ordinary)
    ensures !NeverCostsMore(Plain, m)
  {
    RunsReduceToSales(time, Plain, m);
    assert !SaleBounded(base, 1, 1, Plain, m);
  }

  /** Both parts cut off, at a day-trade rate of at most 1: no run costs more exactly when the day-trade quantum is no
      finer, or the first base that owes one owes an ordinary one too. */
  lemma {:induction false} CutOffExactly(time: i64, m: TaxModel)
    requires ValidTaxModel(m) && CoveredTime(m, time) && CutOffWithoutMinimum(m)
    requires m.dayTrade.rounding == Down && 0 < m.dayTrade.rate <= SCALE
    ensures NeverCostsMore(Plain, m) <==> m.dayTrade.precision <= m.ordinary.precision || FirstIsCovered(m)
  {
    if m.dayTrade.precision <= m.ordinary.precision {
      SavingNeverCostsMore(Plain, m);
    } else if FirstIsCovered(m) {
      forall price: i128, quantity: u64, matched: nat ensures SaleBounded(price, quantity, matched, Plain, m) {
        if matched <= quantity && SplitSellTax(price, quantity, matched, Plain, m).Ok? && SplitSellTax(price, quantity, 0, Plain, m).Ok? {
          CoveredSale(price, quantity, matched, Plain, m);
        }
      }
      RunsReduceToSales(time, Plain, m);
    } else {
      FirstCostsMore(time, m);
    }
  }

  lemma {:induction false} SavingNeverCostsMore(e: Economics, m: TaxModel)
    requires ValidTaxModel(m) && SavesTax(m)
    ensures NeverCostsMore(e, m)
  {
    forall fills ensures Bounded(fills, e, m) {
      var run, sales := TaxRun(fills, e, m), SalesOf(fills, m);
      if run.Ok? && OrdinaryTax(sales, |sales|, e, m).Ok? {
        DayTradeTaxAtMostOrdinary(fills, e, m);
      }
    }
  }

  lemma {:induction false} FirstCostsMore(time: i64, m: TaxModel)
    requires ValidTaxModel(m) && CoveredTime(m, time) && CutOffWithoutMinimum(m)
    requires m.dayTrade.rounding == Down && m.dayTrade.rate > 0 && !FirstIsCovered(m)
    ensures !NeverCostsMore(Plain, m)
  {
    var base := FirstBase(m);
    FirstInRange(base, m.dayTrade.rate, m.ordinary.rate, SCALE * Quantum(m.ordinary));
    QuantaInRange(m);
    var a1, u1 := CutOffExists(m.dayTrade, base);
    var a, u := CutOffExists(m.ordinary, base);
    OwedByFirst(base * m.dayTrade.rate, SCALE, Quantum(m.dayTrade), a1, u1);
    NothingOwed(base * m.ordinary.rate, SCALE, Quantum(m.ordinary), a, u);
    PlainPart(base, 1, m.dayTrade, base * m.dayTrade.rate, Quantum(m.dayTrade), a1, u1);
    PlainPart(base, 1, m.ordinary, base * m.ordinary.rate, Quantum(m.ordinary), a, u);
    SomeTax(u1, Quantum(m.dayTrade));
    OneUnitCostsMore(time, base, m, u1 * Quantum(m.dayTrade), 0);
  }

  lemma {:induction false} SomeTax(units: int, quantum: int)
    requires units >= 1 && quantum >= 1
    ensures units * quantum > 0
  {
    ScaledBelow(quantum, 1, units);
  }

  lemma {:induction false} FirstInRange(base: nat, r1: nat, r0: nat, bound: int)
    requires 0 < r1 <= r0 && base * r0 < bound
    ensures base < bound && base * r1 < bound
  {
    ProductNonNegative(base, r0 - 1);
    assert base * (r0 - 1) == base * r0 - base;
    ProductNonNegative(base, r0 - r1);
    assert base * (r0 - r1) == base * r0 - base * r1;
  }

  lemma {:induction false} QuantaInRange(m: TaxModel)
    requires ValidTaxModel(m)
    ensures SCALE * Quantum(m.ordinary) <= SCALE * SCALE <= I128_MAX
  {
    Power10AtMost(18 - m.ordinary.precision);
    ScaledBelow(SCALE, Quantum(m.ordinary), SCALE);
  }

  lemma {:induction false} OwedByFirst(product: int, scale: int, quantum: int, a: int, u: int)
    requires scale > 0 && quantum > 0 && Rounds(Down, product, scale, a) && Rounds(Down, a, quantum, u) && product >= scale * quantum
    ensures u >= 1
  {
    RoundsUp(Down, 0, product, scale, 0, a, quantum);
    RoundsUp(Down, 0, a, quantum, 0, u, 1);
  }

  lemma {:induction false} NothingOwed(product: nat, scale: int, quantum: int, a: int, u: int)
    requires scale > 0 && quantum > 0 && Rounds(Down, product, scale, a) && Rounds(Down, a, quantum, u) && product < scale * quantum
    ensures u == 0
  {
    RoundsUp(Down, 0, product, scale, 0, a, 0);
    RoundsUp(Down, 0, a, quantum, 0, u, 0);
    if u >= 1 {
      OwesAtLeast(product, scale, quantum, a, u, 1);
    }
  }

  /** A day-trade part that is rounded up, against an ordinary tax that the least base does not owe: no run costs more
      exactly when day trades are free. */
  lemma {:induction false} RoundedUpExactly(time: i64, m: TaxModel)
    requires ValidTaxModel(m) && CoveredTime(m, time) && CutOffWithoutMinimum(m)
    requires m.dayTrade.rounding == Up && m.ordinary.rate < SCALE * Quantum(m.ordinary)
    ensures NeverCostsMore(Plain, m) <==> m.dayTrade.rate == 0
  {
    if m.dayTrade.rate == 0 {
      SavingNeverCostsMore(Plain, m);
    } else {
      LeastCostsMore(time, m);
    }
  }

  lemma {:induction false} LeastCostsMore(time: i64, m: TaxModel)
    requires ValidTaxModel(m) && CoveredTime(m, time) && CutOffWithoutMinimum(m)
    requires m.dayTrade.rounding == Up && 0 < m.dayTrade.rate && m.ordinary.rate < SCALE * Quantum(m.ordinary)
    ensures !NeverCostsMore(Plain, m)
  {
    QuantaInRange(m);
    var owed := LeastOwed(m.dayTrade);
    LeastIsFree(m.ordinary);
    OneUnitCostsMore(time, 1, m, owed, 0);
  }

  lemma {:induction false} LeastOwed(charge: ChargeModel) returns (owed: i128)
    requires SellCharge(charge) && charge.minimum == 0 && charge.rounding == Up && 0 < charge.rate < SCALE * SCALE
    ensures owed > 0 && PartTax(1, 1, Plain, charge) == Ok(owed)
  {
    Power10AtMost(18 - charge.precision);
    var a := RoundedUp(charge.rate, SCALE);
    var u := RoundedUp(a, Quantum(charge));
    RoundsUpTo(charge.rate, SCALE);
    RoundsUpTo(a, Quantum(charge));
    SomeTax(u, Quantum(charge));
    UpInRange(charge.rate, SCALE, Quantum(charge), a, u);
    owed := u * Quantum(charge);
    PlainPart(1, 1, charge, charge.rate, Quantum(charge), a, u);
  }

  lemma {:induction false} LeastIsFree(charge: ChargeModel)
    requires SellCharge(charge) && charge.minimum == 0 && charge.rounding == Down && charge.rate < SCALE * Quantum(charge)
    ensures PartTax(1, 1, Plain, charge) == Ok(0)
  {
    var a := BelowQuantum(charge.rate, SCALE, Quantum(charge));
    UnitPart(charge, Quantum(charge), a, 0);
  }

  lemma {:induction false} BelowQuantum(product: nat, scale: int, quantum: int) returns (a: int)
    requires scale > 0 && quantum > 0 && product < scale * quantum
    ensures Rounds(Down, product, scale, a) && Rounds(Down, a, quantum, 0)
  {
    a := CutOff(product, scale);
    var u := CutOff(a, quantum);
    NothingOwed(product, scale, quantum, a, u);
  }

  lemma {:induction false} UnitPart(charge: ChargeModel, quantum: int, a: int, u: int)
    requires SellCharge(charge) && quantum == Quantum(charge) && Rounds(charge.rounding, charge.rate, SCALE, a)
    requires Rounds(charge.rounding, a, quantum, u)
    ensures PartTax(1, 1, Plain, charge) == Ok(Max(u * quantum, charge.minimum))
  {
    PlainPart(1, 1, charge, charge.rate, quantum, a, u);
  }

  lemma {:induction false} UpInRange(rate: int, scale: int, quantum: int, a: int, u: int)
    requires scale > 0 && 0 < quantum <= scale && rate < scale * scale && (a - 1) * scale < rate && (u - 1) * quantum < a
    ensures u * quantum < 2 * scale
  {
    if a - 1 >= scale {
      ScaledBelow(scale, scale, a - 1);
    }
    assert (u - 1) * quantum == u * quantum - quantum;
  }

  lemma {:induction false} RoundsUpTo(n: nat, d: nat)
    requires n > 0 && d > 0
    ensures Rounds(Up, n, d, RoundedUp(n, d)) && RoundedUp(n, d) >= 1
  {
    var q := RoundedUp(n, d);
    assert (q - 1) * d == q * d - d;
  }
}
