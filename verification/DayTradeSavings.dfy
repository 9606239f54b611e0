/** When taxing day trades at their lower rate never costs more than taxing every sell in full. */
module DayTradeSavings {
  import opened Wrappers
  import opened MachineIntegers
  import opened MarketTypes
  import opened AccountingErrors
  import opened ExactArithmetic
  import opened PositionAccounting
  import opened DayTradeTax
  import opened DayTradeFifo

  /** The condition under which the day-trade rate is a saving: it has no minimum, and either charges nothing or
      cuts off to no finer a quantum than an ordinary tax without minimum. How the ordinary tax rounds does not matter. */
  predicate SavesTax(m: TaxModel) {
    m.dayTrade.minimum == 0 && (m.dayTrade.rate == 0 || (CutsOff(m) && m.ordinary.minimum == 0))
  }

  predicate CutsOff(m: TaxModel) {
    m.dayTrade.rounding == Down && m.dayTrade.precision <= m.ordinary.precision
  }

  predicate SellCharge(charge: ChargeModel) {
    ValidCharge(charge) && charge.basis == NotionalRate && charge.sides == SellOnly
  }

  // -------------------------------------------------------------- one sell

  /** What a base comes to: rounded to atoms, and those to quanta. */
  ghost predicate RoundsTo(charge: ChargeModel, base: int, atoms: int, units: int)
    requires ValidCharge(charge)
  {
    Rounds(charge.rounding, base * charge.rate, SCALE, atoms) && Rounds(charge.rounding, atoms, Quantum(charge), units)
  }

  /** A charge's own value, and what its base comes to. */
  ghost predicate Charged(charge: ChargeModel, base: int, atoms: int, units: int, value: int)
    requires ValidCharge(charge)
  {
    RoundsTo(charge, base, atoms, units) && value == Max(units * Quantum(charge), charge.minimum)
  }

  lemma {:induction false} ChargeShape(notional: int, quantity: nat, charge: ChargeModel) returns (atoms: int, units: int)
    requires SellCharge(charge) && Charge(notional, quantity, Sell, charge).Ok?
    ensures Charged(charge, Abs(notional), atoms, units, Charge(notional, quantity, Sell, charge).value)
  {
    ChargeRefinesDirectForm(notional, quantity, Sell, charge);
    var a, u :| && Rounds(charge.rounding, Abs(notional) * charge.rate, SCALE, a)
                && Rounds(charge.rounding, a, Quantum(charge), u)
                && Charge(notional, quantity, Sell, charge).value == Max(u * Quantum(charge), charge.minimum);
    atoms, units := a, u;
  }

  lemma {:induction false} RoundsToNonNegative(charge: ChargeModel, base: nat, atoms: int, units: int)
    requires ValidCharge(charge) && RoundsTo(charge, base, atoms, units)
    ensures atoms >= 0 && units >= 0
  {
    ProductNonNegative(base, charge.rate);
    NothingRoundsToNothing(charge.rounding, SCALE);
    NothingRoundsToNothing(charge.rounding, Quantum(charge));
    RoundsUp(charge.rounding, 0, base * charge.rate, SCALE, 0, atoms, 0);
    RoundsUp(charge.rounding, 0, atoms, Quantum(charge), 0, units, 0);
  }

  lemma {:induction false} NothingRoundsToNothing(policy: RoundingPolicy, d: int)
    requires d > 0
    ensures Rounds(policy, 0, d, 0)
  {
    assert 0 * d == 0;
  }

  /** The tax on a part that is not empty. */
  lemma {:induction false} PartTaxShape(price: int, quantity: nat, e: Economics, charge: ChargeModel) returns (base: nat, atoms: int, units: int)
    requires SellCharge(charge) && quantity > 0 && PartTax(price, quantity, e, charge).Ok?
    ensures SCALE * base == Abs(price * Weight(e)) * quantity
    ensures Charged(charge, base, atoms, units, PartTax(price, quantity, e, charge).value) && atoms >= 0 && units >= 0
  {
    var notional := ScaleByQuantity(price, quantity, e).value;
    ScaleByQuantityExact(price, quantity, e);
    base := Abs(notional);
    Magnitude(price, quantity, Weight(e), notional);
    atoms, units := ChargeShape(notional, quantity, charge);
    RoundsToNonNegative(charge, base, atoms, units);
  }

  lemma {:induction false} Magnitude(price: int, quantity: nat, weight: int, notional: int)
    requires SCALE * notional == price * quantity * weight
    ensures SCALE * Abs(notional) == Abs(price * weight) * quantity
  {
    var p := price * weight;
    assert price * quantity * weight == p * quantity;
    if p >= 0 {
      ProductNonNegative(p, quantity);
    } else {
      ProductNonNegative(-p, quantity);
      assert -p * quantity == -(p * quantity);
    }
  }

  /** Rounding keeps the order, and commutes with adding whole multiples. */
  lemma {:induction false} RoundsUp(policy: RoundingPolicy, n1: int, n2: int, d: int, q1: int, q2: int, k: int)
    requires d > 0 && Rounds(policy, n1, d, q1) && Rounds(policy, n2, d, q2) && n2 >= n1 + k * d
    ensures q2 >= q1 + k
  {
    assert (q2 - q1 - k) * d == q2 * d - q1 * d - k * d;
    if q2 - q1 - k <= -1 {
      ScaledBelow(d, q2 - q1 - k, -1);
    }
  }

  /** The day-trade part and the rest, against the whole, before any minimum. */
  lemma {:induction false} PartsAtMostWhole(b1: nat, a1: int, u1: int, b0: nat, a0: int, u0: int, a: int, u: int, m: TaxModel)
    requires ValidTaxModel(m) && CutsOff(m)
    requires RoundsTo(m.dayTrade, b1, a1, u1) && RoundsTo(m.ordinary, b0, a0, u0) && RoundsTo(m.ordinary, b1 + b0, a, u)
    ensures u1 * Quantum(m.dayTrade) + u0 * Quantum(m.ordinary) <= u * Quantum(m.ordinary)
  {
    var fine := Quantum(m.ordinary);
    var k := FinerQuanta(m, u1);
    BaseCovers(b1, b0, m.dayTrade.rate, m.ordinary.rate, k * fine, a1);
    RoundsUp(m.ordinary.rounding, b0 * m.ordinary.rate, (b1 + b0) * m.ordinary.rate, SCALE, a0, a, k * fine);
    RoundsUp(m.ordinary.rounding, a0, a, fine, u0, u, k);
    ScaledBelow(fine, u0 + k, u);
    assert fine * (u0 + k) == u0 * fine + k * fine;
  }

  /** Day-trade quanta are whole numbers of ordinary quanta. */
  lemma {:induction false} FinerQuanta(m: TaxModel, units: int) returns (k: int)
    requires ValidTaxModel(m) && m.dayTrade.precision <= m.ordinary.precision
    ensures k * Quantum(m.ordinary) == units * Quantum(m.dayTrade)
  {
    Power10Adds(m.ordinary.precision - m.dayTrade.precision, 18 - m.ordinary.precision);
    k := Scaled(units, Power10(m.ordinary.precision - m.dayTrade.precision), Quantum(m.ordinary));
  }

  lemma {:induction false} Scaled(units: int, factor: int, fine: int) returns (k: int)
    ensures k * fine == units * (factor * fine)
  {
    k := units * factor;
  }

  lemma {:induction false} BaseCovers(b1: nat, b0: nat, r1: nat, r0: nat, taken: int, a1: int)
    requires r1 <= r0 && taken <= a1 && a1 * SCALE <= b1 * r1
    ensures (b1 + b0) * r0 >= b0 * r0 + taken * SCALE
  {
    assert (b1 + b0) * r0 == b1 * r0 + b0 * r0;
    ProductNonNegative(b1, r0 - r1);
    assert b1 * (r0 - r1) == b1 * r0 - b1 * r1;
    ScaledBelow(SCALE, taken, a1);
  }

  /** The ordinary model without its minimum. */
  function Raw(m: TaxModel): ChargeModel {
    m.ordinary.(minimum := 0)
  }

  /** A minimum changes only what a charge is raised to. */
  lemma {:induction false} RawPart(price: int, quantity: nat, e: Economics, m: TaxModel)
    requires ValidTaxModel(m) && PartTax(price, quantity, e, m.ordinary).Ok?
    ensures PartTax(price, quantity, e, Raw(m)).Ok?
    ensures PartTax(price, quantity, e, m.ordinary).value
      == if quantity == 0 then 0 else Max(PartTax(price, quantity, e, Raw(m)).value, m.ordinary.minimum)
    ensures quantity == 0 ==> PartTax(price, quantity, e, Raw(m)).value == 0
  {
    if quantity > 0 {
      var base, atoms, units := PartTaxShape(price, quantity, e, m.ordinary);
      var _, atoms1, units1 := PartTaxShape(price, quantity, e, Raw(m));
    }
  }

  /** Without minimum charges the parts of a sell never owe more than the whole. */
  lemma {:induction false} RawSplitAtMostWhole(price: int, quantity: nat, matched: nat, e: Economics, m: TaxModel)
    requires ValidTaxModel(m) && CutsOff(m) && m.dayTrade.minimum == 0
    requires matched <= quantity && PartTax(price, matched, e, m.dayTrade).Ok?
    requires PartTax(price, quantity - matched, e, Raw(m)).Ok? && PartTax(price, quantity, e, Raw(m)).Ok?
    ensures PartTax(price, matched, e, m.dayTrade).value + PartTax(price, quantity - matched, e, Raw(m)).value
         <= PartTax(price, quantity, e, Raw(m)).value
  {
    var b1, a1, u1 := FreePart(price, matched, e, m.dayTrade);
    var b0, a0, u0 := FreePart(price, quantity - matched, e, Raw(m));
    var b, a, u := FreePart(price, quantity, e, Raw(m));
    AddBases(Abs(price * Weight(e)), matched, quantity, b1, b0, b);
    PartsAtMostWhole(b1, a1, u1, b0, a0, u0, a, u, m.(ordinary := Raw(m)));
  }

  /** Without a minimum the empty part is no exception. */
  lemma {:induction false} FreePart(price: int, quantity: nat, e: Economics, charge: ChargeModel) returns (base: nat, atoms: int, units: int)
    requires SellCharge(charge) && charge.minimum == 0 && PartTax(price, quantity, e, charge).Ok?
    ensures SCALE * base == Abs(price * Weight(e)) * quantity && RoundsTo(charge, base, atoms, units)
    ensures PartTax(price, quantity, e, charge).value == units * Quantum(charge)
  {
    if quantity == 0 {
      base, atoms, units := 0, 0, 0;
      NothingRoundsToNothing(charge.rounding, SCALE);
      NothingRoundsToNothing(charge.rounding, Quantum(charge));
    } else {
      base, atoms, units := PartTaxShape(price, quantity, e, charge);
      ProductNonNegative(units, Quantum(charge));
    }
  }

  lemma {:induction false} SplitParts(price: int, quantity: nat, matched: nat, e: Economics, m: TaxModel)
    requires ValidTaxModel(m) && SplitSellTax(price, quantity, matched, e, m).Ok?
    ensures matched <= quantity && PartTax(price, matched, e, m.dayTrade).Ok?
    ensures PartTax(price, quantity - matched, e, m.ordinary).Ok?
    ensures SplitSellTax(price, quantity, matched, e, m).value
      == PartTax(price, matched, e, m.dayTrade).value + PartTax(price, quantity - matched, e, m.ordinary).value
  {
  }

  lemma {:induction false} AddBases(p: nat, matched: nat, quantity: nat, b1: nat, b0: nat, b: nat)
    requires matched <= quantity
    requires SCALE * b1 == p * matched && SCALE * b0 == p * (quantity - matched) && SCALE * b == p * quantity
    ensures b == b1 + b0
  {
    assert p * (quantity - matched) == p * quantity - p * matched;
  }

  lemma {:induction false} SplitAtMostOrdinary(price: int, quantity: nat, matched: nat, e: Economics, m: TaxModel)
    requires ValidTaxModel(m) && SavesTax(m) && matched <= quantity
    requires SplitSellTax(price, quantity, matched, e, m).Ok? && SplitSellTax(price, quantity, 0, e, m).Ok?
    ensures SplitSellTax(price, quantity, matched, e, m).value <= SplitSellTax(price, quantity, 0, e, m).value
  {
    SplitParts(price, quantity, matched, e, m);
    SplitParts(price, quantity, 0, e, m);
    if m.dayTrade.rate == 0 {
      NoRateNoTax(price, matched, e, m.dayTrade);
      RestAtMostWhole(price, quantity, matched, e, m);
    } else {
      assert Raw(m) == m.ordinary;
      RawSplitAtMostWhole(price, quantity, matched, e, m);
    }
  }

  lemma {:induction false} NoRateNoTax(price: int, quantity: nat, e: Economics, charge: ChargeModel)
    requires SellCharge(charge) && charge.minimum == 0 && charge.rate == 0 && PartTax(price, quantity, e, charge).Ok?
    ensures PartTax(price, quantity, e, charge).value == 0
  {
    var base, atoms, units := FreePart(price, quantity, e, charge);
    assert base * charge.rate == 0;
    NothingRoundsToNothing(charge.rounding, SCALE);
    RoundsUnique(charge.rounding, 0, SCALE, atoms, 0);
    NothingRoundsToNothing(charge.rounding, Quantum(charge));
    RoundsUnique(charge.rounding, 0, Quantum(charge), units, 0);
  }

  lemma {:induction false} RestAtMostWhole(price: int, quantity: nat, matched: nat, e: Economics, m: TaxModel)
    requires ValidTaxModel(m) && matched <= quantity
    requires PartTax(price, quantity - matched, e, m.ordinary).Ok? && PartTax(price, quantity, e, m.ordinary).Ok?
    ensures PartTax(price, quantity - matched, e, m.ordinary).value <= PartTax(price, quantity, e, m.ordinary).value
  {
    RawPart(price, quantity - matched, e, m);
    RawPart(price, quantity, e, m);
    var b0, a0, u0 := FreePart(price, quantity - matched, e, Raw(m));
    var b, a, u := FreePart(price, quantity, e, Raw(m));
    LessBase(Abs(price * Weight(e)), matched, quantity, b0, b);
    LessOwed(Raw(m), b0, a0, u0, b, a, u);
  }

  lemma {:induction false} LessOwed(charge: ChargeModel, b0: nat, a0: int, u0: int, b: nat, a: int, u: int)
    requires ValidCharge(charge) && b0 <= b && RoundsTo(charge, b0, a0, u0) && RoundsTo(charge, b, a, u)
    ensures u0 * Quantum(charge) <= u * Quantum(charge)
  {
    ProductNonNegative(b - b0, charge.rate);
    assert (b - b0) * charge.rate == b * charge.rate - b0 * charge.rate;
    RoundsUp(charge.rounding, b0 * charge.rate, b * charge.rate, SCALE, a0, a, 0);
    RoundsUp(charge.rounding, a0, a, Quantum(charge), u0, u, 0);
    ScaledBelow(Quantum(charge), u0, u);
  }

  lemma {:induction false} LessBase(p: nat, matched: nat, quantity: nat, b0: nat, b: nat)
    requires matched <= quantity && SCALE * b0 == p * (quantity - matched) && SCALE * b == p * quantity
    ensures b0 <= b
  {
    ProductNonNegative(p, matched);
    assert p * (quantity - matched) == p * quantity - p * matched;
  }

  /** Both parts owe something, and what the rest lacks to the minimum exceeds what the parts save. */
  ghost predicate RestRaised(price: int, quantity: nat, matched: nat, e: Economics, m: TaxModel)
    requires ValidTaxModel(m)
  {
    && matched < quantity && PartTax(price, matched, e, m.dayTrade).Ok?
    && PartTax(price, quantity - matched, e, Raw(m)).Ok? && PartTax(price, quantity, e, Raw(m)).Ok?
    && var dayTrade := PartTax(price, matched, e, m.dayTrade).value;
       dayTrade > 0 && PartTax(price, quantity - matched, e, Raw(m)).value < m.ordinary.minimum
       && PartTax(price, quantity, e, Raw(m)).value < dayTrade + m.ordinary.minimum
  }

  /** With a minimum on the ordinary tax alone, a sell costs more split than whole exactly when its matched part
      owes something, its rest less than the minimum, and the whole less than the matched part and the minimum. */
  lemma {:induction false} OrdinaryMinimumExactly(price: int, quantity: nat, matched: nat, e: Economics, m: TaxModel)
    requires ValidTaxModel(m) && CutsOff(m) && m.dayTrade.minimum == 0 && matched <= quantity
    requires SplitSellTax(price, quantity, matched, e, m).Ok? && SplitSellTax(price, quantity, 0, e, m).Ok?
    ensures SplitSellTax(price, quantity, matched, e, m).value > SplitSellTax(price, quantity, 0, e, m).value
       <==> RestRaised(price, quantity, matched, e, m)
  {
    SplitParts(price, quantity, matched, e, m);
    SplitParts(price, quantity, 0, e, m);
    RawPart(price, quantity - matched, e, m);
    RawPart(price, quantity, e, m);
    RawSplitAtMostWhole(price, quantity, matched, e, m);
  }

  // ---------------------------------------------------------------- whole runs

  /** The tax of the first `n` sells with nothing matched. */
  function OrdinaryTax(sales: seq<Sale>, n: nat, e: Economics, m: TaxModel): Result<int, AccountingError>
    requires ValidTaxModel(m) && n <= |sales|
  {
    if n == 0 then Ok(0) else
    var before :- OrdinaryTax(sales, n - 1, e, m);
    var tax :- SplitSellTax(sales[n - 1].price, sales[n - 1].quantity, 0, e, m);
    Ok(before + tax)
  }

  /** A run costs at most its ordinary tax, when both can be computed. */
  ghost predicate Bounded(fills: seq<FillRecord>, e: Economics, m: TaxModel)
    requires ValidTaxModel(m)
  {
    var run, sales := TaxRun(fills, e, m), SalesOf(fills, m);
    run.Ok? && OrdinaryTax(sales, |sales|, e, m).Ok? ==> run.value.total <= OrdinaryTax(sales, |sales|, e, m).value
  }

  ghost predicate NeverCostsMore(e: Economics, m: TaxModel)
    requires ValidTaxModel(m)
  {
    forall fills :: Bounded(fills, e, m)
  }

  /** A sell costs at most its ordinary tax, however much of it is matched. */
  ghost predicate SaleBounded(price: i128, quantity: u64, matched: nat, e: Economics, m: TaxModel)
    requires ValidTaxModel(m)
  {
    matched <= quantity && SplitSellTax(price, quantity, matched, e, m).Ok? && SplitSellTax(price, quantity, 0, e, m).Ok? ==>
      SplitSellTax(price, quantity, matched, e, m).value <= SplitSellTax(price, quantity, 0, e, m).value
  }

  ghost predicate NoSaleCostsMore(e: Economics, m: TaxModel)
    requires ValidTaxModel(m)
  {
    forall price: i128, quantity: u64, matched: nat :: SaleBounded(price, quantity, matched, e, m)
  }

  lemma {:induction false} FifoAtMostOrdinary(fills: seq<FillRecord>, n: nat, e: Economics, m: TaxModel)
    requires ValidTaxModel(m) && NoSaleCostsMore(e, m) && n <= |SalesOf(fills, m)|
    requires FifoTax(fills, n, SplitAssessment(e, m), m).Ok? && OrdinaryTax(SalesOf(fills, m), n, e, m).Ok?
    ensures FifoTax(fills, n, SplitAssessment(e, m), m).value <= OrdinaryTax(SalesOf(fills, m), n, e, m).value
  {
    if n > 0 {
      FifoAtMostOrdinary(fills, n - 1, e, m);
      SaleRanges(fills, m, n - 1);
      var sale := SalesOf(fills, m)[n - 1];
      assert SaleBounded(sale.price, sale.quantity, FinalMatched(fills, m, n - 1), e, m);
    }
  }

  lemma {:induction false} SaleRanges(fills: seq<FillRecord>, m: TaxModel, n: nat)
    requires n < |SalesOf(fills, m)|
    ensures IsI128(SalesOf(fills, m)[n].price) && IsU64(SalesOf(fills, m)[n].quantity)
  {
    if fills != [] && n < |SalesOf(fills[..|fills| - 1], m)| {
      SaleRanges(fills[..|fills| - 1], m, n);
    }
  }

  lemma {:induction false} RunAtMostOrdinary(fills: seq<FillRecord>, e: Economics, m: TaxModel)
    requires ValidTaxModel(m) && NoSaleCostsMore(e, m)
    ensures Bounded(fills, e, m)
  {
    if TaxRun(fills, e, m).Ok? && OrdinaryTax(SalesOf(fills, m), |SalesOf(fills, m)|, e, m).Ok? {
      BookedTaxIsFifoTax(fills, e, m);
      FifoAtMostOrdinary(fills, |SalesOf(fills, m)|, e, m);
    }
  }

  /** Under the condition no run ever costs more than its sells would in full. */
  lemma {:induction false} DayTradeTaxAtMostOrdinary(fills: seq<FillRecord>, e: Economics, m: TaxModel)
    requires ValidTaxModel(m) && SavesTax(m) && TaxRun(fills, e, m).Ok?
    requires OrdinaryTax(SalesOf(fills, m), |SalesOf(fills, m)|, e, m).Ok?
    ensures TaxRun(fills, e, m).value.total <= OrdinaryTax(SalesOf(fills, m), |SalesOf(fills, m)|, e, m).value
  {
    forall price: i128, quantity: u64, matched: nat ensures SaleBounded(price, quantity, matched, e, m) {
      if matched <= quantity && SplitSellTax(price, quantity, matched, e, m).Ok? && SplitSellTax(price, quantity, 0, e, m).Ok? {
        SplitAtMostOrdinary(price, quantity, matched, e, m);
      }
    }
    RunAtMostOrdinary(fills, e, m);
  }

  // ------------------------------------------------ one sell is a run of its own

  ghost predicate CoveredTime(m: TaxModel, time: i64) {
    var date := TradingDate(time, m.offsetMinutes);
    date.Ok? && Covers(m, date.value)
  }

  function Trade(side: OrderSide, price: i128, quantity: u64, time: i64): FillRecord
    requires quantity > 0
  {
    FillRecord("", Control(0), time, side, price, Quantity(quantity, Share))
  }

  /** Some units are bought and more of them sold, at one price on one day. */
  function DayTrade(price: i128, quantity: u64, matched: u64, time: i64): seq<FillRecord>
    requires 0 < matched <= quantity
  {
    [Trade(Buy, price, matched, time), Trade(Sell, price, quantity, time)]
  }

  lemma {:induction false} TaxRunNext(fills: seq<FillRecord>, fill: FillRecord, st: TaxState, e: Economics, m: TaxModel)
    requires ValidTaxModel(m) && TaxRun(fills, e, m) == Ok(st)
    ensures TaxRun(fills + [fill], e, m) == TaxStep(st, fill, e, m)
    ensures SalesOf(fills + [fill], m)
      == SalesOf(fills, m) + (if fill.side == Sell then [Sale(DateOf(fill, m), fill.price, fill.quantity.value)] else [])
  {
    assert (fills + [fill])[..|fills|] == fills;
  }

  lemma {:induction false} BuyOpens(price: i128, quantity: u64, time: i64, e: Economics, m: TaxModel)
    requires ValidTaxModel(m) && CoveredTime(m, time) && quantity > 0 && ScaleByQuantity(price, quantity, e).Ok?
    ensures TaxStep(TaxState(0, [], []), Trade(Buy, price, quantity, time), e, m)
      == Ok(TaxState(0, [DayTradeBuy(TradingDate(time, m.offsetMinutes).value, quantity)], []))
  {
    var date := TradingDate(time, m.offsetMinutes).value;
    assert [] + [DayTradeBuy(date, quantity)] == [DayTradeBuy(date, quantity)];
  }

  lemma {:induction false} SellSettles(price: i128, quantity: u64, matched: u64, date: int, assess: Assessment)
    requires 0 < matched <= quantity && assess(price, quantity, matched).Ok?
    ensures var r := SellTax(date, price, quantity, [DayTradeBuy(date, matched)], [], assess);
      r.Ok? && r.value.tax == assess(price, quantity, matched).value
  {
    ConsumeBuysBalance([DayTradeBuy(date, matched)], date, quantity, date);
    assert OpenBuys([DayTradeBuy(date, matched)][1..], date) == 0;
  }

  lemma {:induction false} DayTradeCosts(price: i128, quantity: u64, matched: u64, time: i64, e: Economics, m: TaxModel)
    requires ValidTaxModel(m) && CoveredTime(m, time) && 0 < matched <= quantity
    requires SplitSellTax(price, quantity, matched, e, m).Ok? && SplitSellTax(price, quantity, 0, e, m).Ok?
    ensures var fills := DayTrade(price, quantity, matched, time); var run, sales := TaxRun(fills, e, m), SalesOf(fills, m);
      && run.Ok? && run.value.total == SplitSellTax(price, quantity, matched, e, m).value
      && OrdinaryTax(sales, |sales|, e, m) == SplitSellTax(price, quantity, 0, e, m)
  {
    var buy, sell := Trade(Buy, price, matched, time), Trade(Sell, price, quantity, time);
    var date := TradingDate(time, m.offsetMinutes).value;
    SplitParts(price, quantity, matched, e, m);
    SplitParts(price, quantity, 0, e, m);
    BuyOpens(price, matched, time, e, m);
    assert [] + [buy] == [buy] && [buy] + [sell] == DayTrade(price, quantity, matched, time);
    TaxRunNext([], buy, TaxState(0, [], []), e, m);
    TaxRunNext([buy], sell, TaxState(0, [DayTradeBuy(date, matched)], []), e, m);
    SellSettles(price, quantity, matched, date, SplitAssessment(e, m));
    OneSaleTax(Sale(date, price, quantity), e, m);
  }

  lemma {:induction false} OneSaleTax(sale: Sale, e: Economics, m: TaxModel)
    requires ValidTaxModel(m) && SplitSellTax(sale.price, sale.quantity, 0, e, m).Ok?
    ensures OrdinaryTax([sale], 1, e, m) == SplitSellTax(sale.price, sale.quantity, 0, e, m)
  {
    assert OrdinaryTax([sale], 0, e, m) == Ok(0);
  }

  /** A tax model that applies on some day saves tax in every run exactly when it does in every single sell. */
  lemma {:induction false} RunsReduceToSales(time: i64, e: Economics, m: TaxModel)
    requires ValidTaxModel(m) && CoveredTime(m, time)
    ensures NeverCostsMore(e, m) <==> NoSaleCostsMore(e, m)
  {
    if NoSaleCostsMore(e, m) {
      forall fills ensures Bounded(fills, e, m) {
        RunAtMostOrdinary(fills, e, m);
      }
    }
    if NeverCostsMore(e, m) {
      forall price: i128, quantity: u64, matched: nat ensures SaleBounded(price, quantity, matched, e, m) {
        RunBoundsSale(price, quantity, matched, time, e, m);
      }
    }
  }

  lemma {:induction false} RunBoundsSale(price: i128, quantity: u64, matched: nat, time: i64, e: Economics, m: TaxModel)
    requires ValidTaxModel(m) && CoveredTime(m, time) && NeverCostsMore(e, m)
    ensures SaleBounded(price, quantity, matched, e, m)
  {
    if 0 < matched <= quantity && SplitSellTax(price, quantity, matched, e, m).Ok? && SplitSellTax(price, quantity, 0, e, m).Ok? {
      DayTradeCosts(price, quantity, matched, time, e, m);
      assert Bounded(DayTrade(price, quantity, matched, time), e, m);
    }
  }

  // ------------------------------------------------- each part of the condition is needed

  /** A base of zero owes the minimum, and each part of a split sell owes its own. */
  lemma {:induction false} MinimumIsPaidTwice(quantity: nat, matched: nat, e: Economics, m: TaxModel)
    requires ValidTaxModel(m) && 0 < matched < quantity && IsI128(m.dayTrade.minimum + m.ordinary.minimum)
    ensures SplitSellTax(0, quantity, matched, e, m) == Ok(m.dayTrade.minimum + m.ordinary.minimum)
  {
    NothingOwesMinimum(matched, e, m.dayTrade);
    NothingOwesMinimum(quantity - matched, e, m.ordinary);
  }

  lemma {:induction false} NothingOwesMinimum(quantity: nat, e: Economics, charge: ChargeModel)
    requires SellCharge(charge) && quantity > 0
    ensures PartTax(0, quantity, e, charge) == Ok(charge.minimum)
  {
    MultiplyDecimalAtomsExact(0, e.multiplier);
    assert ScaleByQuantity(0, quantity, e) == Ok(0);
    NothingRoundsToNothing(charge.rounding, SCALE);
    NothingRoundsToNothing(charge.rounding, Quantum(charge));
    ChargeIs(0, quantity, charge, 0, 0);
  }

  lemma {:induction false} ChargeIs(notional: int, quantity: nat, charge: ChargeModel, atoms: int, units: int)
    requires SellCharge(charge) && IsI128(Abs(notional)) && IsI128(Abs(notional) * charge.rate)
    requires RoundsTo(charge, Abs(notional), atoms, units)
    ensures Charge(notional, quantity, Sell, charge) == Ok(Max(units * Quantum(charge), charge.minimum))
  {
    ChargeRefinesDirectForm(notional, quantity, Sell, charge);
    var a, u := ChargeShape(notional, quantity, charge);
    RoundsUnique(charge.rounding, Abs(notional) * charge.rate, SCALE, a, atoms);
    RoundsUnique(charge.rounding, atoms, Quantum(charge), u, units);
  }

  /** A model that applies and never costs more has no day-trade minimum, unless it is at most the ordinary one
      and the two together are out of range, so that no sell can owe both. */
  lemma {:induction false} DayTradeMinimumIsZero(time: i64, e: Economics, m: TaxModel)
    requires ValidTaxModel(m) && CoveredTime(m, time) && NeverCostsMore(e, m)
    ensures m.dayTrade.minimum == 0
         || (m.dayTrade.minimum <= m.ordinary.minimum && !IsI128(m.dayTrade.minimum + m.ordinary.minimum))
  {
    RunsReduceToSales(time, e, m);
    NothingOwesMinimum(1, e, m.dayTrade);
    NothingOwesMinimum(1, e, m.ordinary);
    assert SaleBounded(0, 1, 1, e, m);
    if IsI128(m.dayTrade.minimum + m.ordinary.minimum) {
      MinimumIsPaidTwice(2, 1, e, m);
      NothingOwesMinimum(2, e, m.ordinary);
      assert SaleBounded(0, 2, 1, e, m);
    }
  }

  /** A model that applies, and lacks of the condition only that the ordinary tax has no minimum, never costs more
      exactly when no sell has its rest raised to the minimum by more than its parts save. */
  lemma {:induction false} OrdinaryMinimumInRuns(time: i64, e: Economics, m: TaxModel)
    requires ValidTaxModel(m) && CoveredTime(m, time) && CutsOff(m) && m.dayTrade.minimum == 0
    ensures NeverCostsMore(e, m) <==> forall price: i128, quantity: u64, matched: nat :: !RaisedSale(price, quantity, matched, e, m)
  {
    RunsReduceToSales(time, e, m);
    forall price: i128, quantity: u64, matched: nat
      ensures SaleBounded(price, quantity, matched, e, m) <==> !RaisedSale(price, quantity, matched, e, m)
    {
      if matched <= quantity && SplitSellTax(price, quantity, matched, e, m).Ok? && SplitSellTax(price, quantity, 0, e, m).Ok? {
        OrdinaryMinimumExactly(price, quantity, matched, e, m);
      }
    }
  }

  /** A sell that can be taxed both ways and has its rest raised. */
  ghost predicate RaisedSale(price: i128, quantity: u64, matched: nat, e: Economics, m: TaxModel)
    requires ValidTaxModel(m)
  {
    && SplitSellTax(price, quantity, matched, e, m).Ok? && SplitSellTax(price, quantity, 0, e, m).Ok?
    && RestRaised(price, quantity, matched, e, m)
  }

  // ------------------------------------- models that lack one part of it, in atoms of the price

  const Plain := Economics(1, SCALE, "shares")
  const PER_MILLE: i128 := 1_000_000_000_000_000

  function OfNotional(rate: i128, minimum: i128, precision: nat, rounding: RoundingPolicy): ChargeModel {
    ChargeModel(NotionalRate, rate, SellOnly, minimum, precision, rounding)
  }

  function Always(ordinary: ChargeModel, dayTrade: ChargeModel): TaxModel {
    TaxModel(ordinary, dayTrade, 0, 0, true, None)
  }

  /** Of one price atom's worth a unit; the base and its product with the rate are given as numbers. */
  lemma {:induction false} PlainPart(price: nat, quantity: nat, charge: ChargeModel, product: int, quantum: int, atoms: int, units: int)
    requires SellCharge(charge) && quantity > 0 && IsI128(price * quantity) && IsI128(price) && IsI128(product)
    requires product == (price * quantity) * charge.rate && quantum == Quantum(charge)
    requires Rounds(charge.rounding, product, SCALE, atoms) && Rounds(charge.rounding, atoms, quantum, units)
    ensures PartTax(price, quantity, Plain, charge) == Ok(Max(units * quantum, charge.minimum))
  {
    Divides(price * SCALE, SCALE, price, 0);
    MultiplyDecimalAtomsExact(price, SCALE);
    ProductNonNegative(price, quantity);
    assert ScaleByQuantity(price, quantity, Plain) == Ok(price * quantity);
    ChargeIs(price * quantity, quantity, charge, atoms, units);
  }

  lemma {:induction false} CostsMore(price: i128, quantity: u64, matched: u64, m: TaxModel, dayTrade: int, rest: int, whole: int)
    requires ValidTaxModel(m) && m.offsetMinutes == 0 && m.validThrough == 0 && m.eligible && 0 < matched <= quantity
    requires PartTax(price, matched, Plain, m.dayTrade) == Ok(dayTrade) && PartTax(price, quantity - matched, Plain, m.ordinary) == Ok(rest)
    requires PartTax(price, quantity, Plain, m.ordinary) == Ok(whole) && IsI128(dayTrade + rest) && IsI128(whole) && dayTrade + rest > whole
    ensures !NeverCostsMore(Plain, m)
  {
    assert TradingDate(0, 0) == Ok(0);
    RunsReduceToSales(0, Plain, m);
    assert !SaleBounded(price, quantity, matched, Plain, m);
  }

  /** Not cut off, a day-trade part may be rounded up: 0.5 becomes 1, where the whole is 0.5 cut off or 1 rounded up. */
  lemma {:induction false} RoundingUpCostsMore(rounding: RoundingPolicy, other: RoundingPolicy)
    requires rounding != Down
    ensures !NeverCostsMore(Plain, Always(OfNotional(PER_MILLE, 0, 0, other), OfNotional(PER_MILLE, 0, 0, rounding)))
  {
    var m := Always(OfNotional(PER_MILLE, 0, 0, other), OfNotional(PER_MILLE, 0, 0, rounding));
    HalfOwed(rounding);
    HalfOwed(other);
    var quantity := if other == Down then 1 else 2;
    CostsMore(500 * SCALE, quantity, 1, m, SCALE, if other == Down then 0 else SCALE, if other == Down then 0 else SCALE);
  }

  lemma {:induction false} HalfOwed(rounding: RoundingPolicy)
    ensures var charge, half := OfNotional(PER_MILLE, 0, 0, rounding), 500 * SCALE;
      && PartTax(half, 1, Plain, charge) == Ok(if rounding == Down then 0 else SCALE)
      && PartTax(half, 2, Plain, charge) == Ok(SCALE)
  {
    var charge := OfNotional(PER_MILLE, 0, 0, rounding);
    UnitQuantum();
    var product := SCALE * (SCALE / 2);
    PlainPart(500 * SCALE, 1, charge, product, SCALE, SCALE / 2, if rounding == Down then 0 else 1);
    PlainPart(500 * SCALE, 2, charge, 2 * product, SCALE, SCALE, 1);
  }

  lemma {:induction false} UnitQuantum()
    ensures Power10(18) == SCALE
  {
    assert Power10(6) == 1_000_000;
    assert Power10(12) == 1_000_000_000_000;
  }

  /** Cut off to a finer quantum, the day-trade part may owe one where the whole owes nothing. */
  lemma {:induction false} FinerQuantumCostsMore(fine: nat, coarse: nat)
    requires coarse < fine <= 18
    ensures !NeverCostsMore(Plain, Always(OfNotional(PER_MILLE, 0, coarse, Down), OfNotional(PER_MILLE, 0, fine, Down)))
  {
    var quantum := Power10(18 - fine);
    QuantumOwed(fine, fine);
    QuantumOwed(coarse, fine);
    Power10AtMost(18 - fine);
    CostsMore(1000 * quantum, 1, 1, Always(OfNotional(PER_MILLE, 0, coarse, Down), OfNotional(PER_MILLE, 0, fine, Down)), quantum, 0, 0);
  }

  /** A tax of one quantum, at that precision or a coarser one. */
  lemma {:induction false} QuantumOwed(precision: nat, fine: nat)
    requires precision <= fine <= 18
    ensures var quantum := Power10(18 - fine);
      PartTax(1000 * quantum, 1, Plain, OfNotional(PER_MILLE, 0, precision, Down)) == Ok(if precision == fine then quantum else 0)
  {
    var quantum, wider := Power10(18 - fine), Power10(18 - precision);
    Power10AtMost(18 - fine);
    if precision < fine {
      Power10Monotone(18 - fine, 17 - precision);
      assert wider == 10 * Power10(17 - precision);
    }
    PlainPart(1000 * quantum, 1, OfNotional(PER_MILLE, 0, precision, Down), quantum * SCALE, wider, quantum,
              if precision == fine then 1 else 0);
  }

  /** A minimum of 2 on the ordinary tax alone: 7 units of price 100 owe 1, the eighth is raised from 0 to 2, all 8 owe 2. */
  lemma {:induction false} OrdinaryMinimumCostsMore()
    ensures !NeverCostsMore(Plain, Always(OfNotional(3 * PER_MILLE, 2 * SCALE, 0, Down), OfNotional(PER_MILLE + PER_MILLE / 2, 0, 0, Down)))
  {
    var m := Always(OfNotional(3 * PER_MILLE, 2 * SCALE, 0, Down), OfNotional(PER_MILLE + PER_MILLE / 2, 0, 0, Down));
    HundredsOwed(7, m.dayTrade, 1);
    HundredsOwed(1, m.ordinary, 0);
    HundredsOwed(8, m.ordinary, 2);
    CostsMore(100 * SCALE, 8, 7, m, SCALE, 2 * SCALE, 2 * SCALE);
  }

  /** At price 100 the tax in atoms is a hundred times the rate for each unit. */
  lemma {:induction false} HundredsOwed(quantity: u64, charge: ChargeModel, units: int)
    requires SellCharge(charge) && charge.precision == 0 && charge.rounding == Down && 0 < quantity < 10
    requires units * SCALE <= 100 * (quantity * charge.rate) < (units + 1) * SCALE <= 10 * SCALE
    ensures PartTax(100 * SCALE, quantity, Plain, charge) == Ok(Max(units * SCALE, charge.minimum))
  {
    UnitQuantum();
    var product := HundredsProduct(SCALE, quantity, charge.rate);
    PlainPart(100 * SCALE, quantity, charge, product, SCALE, 100 * (quantity * charge.rate), units);
  }

  lemma {:induction false} HundredsProduct(scale: int, quantity: int, rate: int) returns (product: int)
    ensures product == scale * (100 * (quantity * rate)) == (100 * scale * quantity) * rate
  {
    product := scale * (100 * (quantity * rate));
    assert (100 * scale * quantity) * rate == 100 * scale * (quantity * rate);
  }
}
