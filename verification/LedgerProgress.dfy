/** No fill is refused for nothing: one whose amounts are far from the limits of 128 bits is booked. */
module LedgerProgress {
  import opened Wrappers
  import opened MachineIntegers
  import opened MarketTypes
  import opened AccountingErrors
  import opened ExactArithmetic
  import opened PositionAccounting
  import opened DayTradeTax
  import opened LedgerFills
  import opened LedgerModel

  /** About a seventeenth of what 128 bits hold. */
  const ROOM: int := 10_000_000_000_000_000_000_000_000_000_000_000_000

  lemma {:induction false} DivideSmall(n: int, d: int, policy: RoundingPolicy)
    requires 0 < d <= I128_MAX && Abs(n) <= 3 * ROOM
    ensures DivideRound(n, d, policy).Ok? && Abs(DivideRound(n, d, policy).value) <= Abs(n) / d + 1
  {
    QuotientAtMost(Abs(n), d);
  }

  lemma {:induction false} SizeOfProduct(x: int, k: nat)
    ensures Abs(x * k) == Abs(x) * k
  {
    if x < 0 {
      assert x * k == -((-x) * k);
      ProductNonNegative(-x, k);
    } else {
      ProductNonNegative(x, k);
    }
  }

  lemma {:induction false} PartOf(x: nat, part: nat, whole: nat)
    requires part <= whole
    ensures 0 <= x * part <= x * whole
  {
    ProductNonNegative(x, part);
    ProductNonNegative(x, whole - part);
    assert x * whole == x * part + x * (whole - part);
  }

  lemma {:induction false} SmallQuotient(x: nat, k: nat, d: nat)
    requires k <= d && d > 0
    ensures x * k / d <= x
  {
    PartOf(x, k, d);
    var q := x * k / d;
    assert d * q <= x * k;
    assert d * (q - x) == d * q - x * d;
    SameSign(d, q - x);
  }

  /** A share of a basis is no larger than the basis, but for its rounding. */
  lemma {:induction false} ShareSmall(basis: int, closed: nat, size: nat)
    requires closed <= size && 0 < size <= I128_MAX && Abs(basis) <= ROOM && Abs(basis) * closed <= ROOM
    ensures AllocatedBasis(basis, closed, size).Ok? && Abs(AllocatedBasis(basis, closed, size).value) <= Abs(basis) + 1
  {
    if closed < size {
      var n := basis * closed;
      SizeOfProduct(basis, closed);
      SmallQuotient(Abs(basis), closed, size);
      DivideSmall(n, size, HalfUp);
    }
  }

  lemma {:induction false} Grows(x: int, k: int)
    requires x >= 0 && k > 0
    ensures x <= x * k
  {
    ProductNonNegative(x, k - 1);
    assert x * k == x * (k - 1) + x;
  }

  lemma {:induction false} ThreeFactors(v: int, m: nat, q: nat, u: nat)
    requires q > 0 && u > 0
    ensures Abs(v * m) <= Abs(v * m * q) <= Abs(v * m * q * u) == Abs(v) * q * (m * u)
  {
    var a, b := v * m, v * m * q;
    SizeOfProduct(v, m);
    SizeOfProduct(a, q);
    SizeOfProduct(b, u);
    Grows(Abs(a), q);
    Grows(Abs(b), u);
    Regroup(Abs(v), m, q, u);
  }

  /** Whole multipliers lose no precision. */
  lemma {:induction false} ScaledSmall(value: int, quantity: nat, e: Economics, m: nat)
    requires e.units > 0 && e.multiplier == SCALE * m && quantity > 0
    requires Abs(value) * quantity * (m * e.units) <= ROOM
    ensures ScaleByQuantity(value, quantity, e).Ok?
    ensures Abs(ScaleByQuantity(value, quantity, e).value) <= ROOM
  {
    ThreeFactors(value, m, quantity, e.units);
    MultiplyDecimalAtomsExact(value, e.multiplier);
    WholeMultiplier(value, e.multiplier, m);
  }

  lemma {:induction false} WholeMultiplier(value: int, multiplier: int, m: nat)
    requires multiplier == SCALE * m
    ensures value * multiplier % SCALE == 0 && value * multiplier / SCALE == value * m
    ensures forall x: int :: SCALE * x == value * multiplier ==> x == value * m
  {
    assert value * multiplier == SCALE * (value * m);
    MultipleModulus(SCALE, value * m);
  }

  /** Amounts of a fill at a position that leave room. */
  ghost predicate Roomy(position: int, basis: int, delta: int, price: int, e: Economics) {
    && delta != 0 && e.units > 0 && e.multiplier > 0 && e.multiplier % SCALE == 0
    && Abs(position) + Abs(delta) <= ROOM && Abs(basis) * Abs(delta) <= ROOM
    && (Abs(price) * Abs(delta) + Abs(basis) + 1) * (e.multiplier / SCALE * e.units) <= ROOM
  }

  lemma {:induction false} RoomFor(position: int, basis: int, delta: int, price: int, e: Economics, part: nat)
    requires Roomy(position, basis, delta, price, e) && part <= Abs(delta)
    ensures Abs(price * part) <= Abs(price) * Abs(delta) && Abs(price) * Abs(delta) + Abs(basis) < ROOM
    ensures Abs(basis) * part <= ROOM
  {
    SizeOfProduct(price, part);
    PartOf(Abs(price), part, Abs(delta));
    PartOf(Abs(basis), part, Abs(delta));
    WeightPositive(e.multiplier / SCALE, e.units);
    Grows(Abs(price) * Abs(delta) + Abs(basis) + 1, e.multiplier / SCALE * e.units);
  }

  lemma {:induction false} WeightPositive(m: int, u: int)
    requires m > 0 && u > 0
    ensures m * u > 0
  {
    ProductAtLeastFactor(m, u);
  }

  lemma {:induction false} RealizedSmall(position: int, basis: int, delta: int, price: int, e: Economics, difference: int)
    requires Roomy(position, basis, delta, price, e) && Abs(difference) <= Abs(price) * Abs(delta) + Abs(basis) + 1
    ensures ScaleByQuantity(difference, 1, e).Ok? && Abs(ScaleByQuantity(difference, 1, e).value) <= ROOM
  {
    var m, room := e.multiplier / SCALE, Abs(price) * Abs(delta) + Abs(basis) + 1;
    WeightPositive(m, e.units);
    PartOf(m * e.units, Abs(difference), room);
    assert Abs(difference) * 1 * (m * e.units) == (m * e.units) * Abs(difference);
    ScaledSmall(difference, 1, e, m);
  }

  lemma {:induction false} OpeningFits(position: int, basis: int, delta: int, price: int, e: Economics)
    requires Roomy(position, basis, delta, price, e) && (position == 0 || Sign(position) == Sign(delta))
    ensures TransitionPosition(position, basis, delta, price, e).Ok? && TransitionPosition(position, basis, delta, price, e).value.realized == 0
  {
    RoomFor(position, basis, delta, price, e, Abs(delta));
    DivideSmall(basis + price * Abs(delta), Abs(position + delta), HalfUp);
  }

  lemma {:induction false} ClosingFits(position: int, basis: int, delta: int, price: int, e: Economics)
    requires Roomy(position, basis, delta, price, e) && position != 0 && Sign(position) != Sign(delta)
    ensures var r := TransitionPosition(position, basis, delta, price, e); r.Ok? && Abs(r.value.realized) <= ROOM
  {
    var size, next := Abs(position), position + delta;
    var closed := Min(size, Abs(delta));
    RoomFor(position, basis, delta, price, e, closed);
    ShareSmall(basis, closed, size);
    var share := AllocatedBasis(basis, closed, size).value;
    var difference := if position > 0 then price * closed - share else share - price * closed;
    RealizedSmall(position, basis, delta, price, e, difference);
    var nextBasis := if next == 0 then 0 else if Sign(next) != Sign(position) then price * Abs(next) else basis - share;
    NextSmall(position, basis, delta, price, e, share, nextBasis);
    ClosesAs(position, basis, delta, price, e, share, difference, nextBasis);
  }

  /** The parts of a transition against the position, when all of them fit. */
  lemma {:induction false} ClosesAs(position: int, basis: int, delta: int, price: int, e: Economics, share: int, difference: int, nextBasis: int)
    requires position != 0 && delta != 0 && Sign(position) != Sign(delta) && IsI128(position + delta) && Abs(position) <= I128_MAX
    requires var next, closed := position + delta, Min(Abs(position), Abs(delta));
      && AllocatedBasis(basis, closed, Abs(position)) == Ok(share) && IsI128(price * closed)
      && difference == (if position > 0 then price * closed - share else share - price * closed) && IsI128(difference)
      && nextBasis == (if next == 0 then 0 else if Sign(next) != Sign(position) then price * Abs(next) else basis - share)
    requires ScaleByQuantity(difference, 1, e).Ok? && IsI128(nextBasis) && AverageCost(nextBasis, position + delta).Ok?
    ensures TransitionPosition(position, basis, delta, price, e)
         == Ok(Transition(position + delta, nextBasis, AverageCost(nextBasis, position + delta).value, ScaleByQuantity(difference, 1, e).value))
  {
  }

  lemma {:induction false} NextSmall(position: int, basis: int, delta: int, price: int, e: Economics, share: int, nextBasis: int)
    requires Roomy(position, basis, delta, price, e) && position != 0 && Sign(position) != Sign(delta) && Abs(share) <= Abs(basis) + 1
    requires var next := position + delta;
      nextBasis == if next == 0 then 0 else if Sign(next) != Sign(position) then price * Abs(next) else basis - share
    ensures IsI128(nextBasis) && AverageCost(nextBasis, position + delta).Ok?
  {
    var next := position + delta;
    if next != 0 {
      RoomFor(position, basis, delta, price, e, 0);
      if Sign(next) != Sign(position) {
        RoomFor(position, basis, delta, price, e, Abs(next));
      }
      DivideSmall(nextBasis, Abs(next), HalfUp);
    }
  }

  // ------------------------------------------------------------------------ taxes

  /** Whatever part of a sell is matched, its tax is known and at most `most`. */
  ghost predicate Assessable(tax: Assessment, price: int, quantity: nat, most: nat) {
    forall matched: nat :: matched <= quantity ==> AssessedAt(tax, price, quantity, matched, most)
  }

  ghost predicate AssessedAt(tax: Assessment, price: int, quantity: nat, matched: nat, most: nat) {
    tax(price, quantity, matched).Ok? && 0 <= tax(price, quantity, matched).value <= most
  }

  /** The queued sells can be taxed again, each for at most `most`. */
  ghost predicate QueueFits(sells: seq<DayTradeSell>, tax: Assessment, most: nat) {
    forall i :: 0 <= i < |sells| ==> SellFits(sells[i], tax, most)
  }

  ghost predicate SellFits(s: DayTradeSell, tax: Assessment, most: nat) {
    s.matched <= s.quantity && 0 <= s.assessed <= most && Assessable(tax, s.price, s.quantity, most)
  }

  lemma {:induction false} RematchFits(sells: seq<DayTradeSell>, date: int, remaining: nat, adjustment: int, tax: Assessment, most: nat)
    requires QueueFits(sells, tax, most) && Abs(adjustment) + |sells| * most <= ROOM
    ensures var r := RematchSells(sells, date, remaining, adjustment, tax);
      r.Ok? && Abs(r.value.adjustment) <= Abs(adjustment) + |sells| * most
  {
    if sells != [] {
      var s, rest := sells[0], sells[1..];
      assert SellFits(s, tax, most);
      assert |sells| * most == |rest| * most + most;
      ProductNonNegative(|rest|, most);
      assert QueueFits(rest, tax, most);
      if remaining == 0 || s.date != date || s.matched >= s.quantity {
        RematchFits(rest, date, remaining, adjustment, tax, most);
      } else {
        var matched := Min(remaining, s.quantity - s.matched);
        assert AssessedAt(tax, s.price, s.quantity, s.matched + matched, most);
        var first := Reassess(s, matched, adjustment, tax).value;
        RematchFits(rest, date, remaining - matched, first.adjustment, tax, most);
      }
    }
  }

  /** The charge on any part of a sell is known and at most `most`. */
  ghost predicate PartsCharged(price: int, quantity: nat, weight: int, charge: ChargeModel, most: nat)
    requires ValidCharge(charge)
  {
    forall k: nat :: 0 < k <= quantity ==> ChargedAt(price * k * weight, k, Sell, charge, most)
  }

  ghost predicate ChargedAt(notional: int, quantity: nat, side: OrderSide, charge: ChargeModel, most: nat)
    requires ValidCharge(charge)
  {
    Charge(notional, quantity, side, charge).Ok? && Charge(notional, quantity, side, charge).value <= most
  }

  lemma {:induction false} NotionalIs(price: int, quantity: nat, e: Economics, m: nat)
    requires e.units > 0 && e.multiplier == SCALE * m && quantity > 0 && Abs(price) * quantity * (m * e.units) <= ROOM
    ensures ScaleByQuantity(price, quantity, e) == Ok(price * quantity * (m * e.units))
  {
    ScaledSmall(price, quantity, e, m);
    ScaleByQuantityExact(price, quantity, e);
    NotionalOf(price * quantity, e, m, ScaleByQuantity(price, quantity, e).value);
  }

  lemma {:induction false} NotionalOf(x: int, e: Economics, m: int, n: int)
    requires e.multiplier == SCALE * m && SCALE * n == x * Weight(e)
    ensures n == x * (m * e.units)
  {
    WeightOf(e.multiplier, m, e.units);
    DropScale(n, x, m * e.units, Weight(e));
  }

  lemma {:induction false} WeightOf(multiplier: int, m: int, units: int)
    requires multiplier == SCALE * m
    ensures multiplier * units == SCALE * (m * units)
  {
  }

  lemma {:induction false} DropScale(n: int, x: int, weight: int, scaled: int)
    requires scaled == SCALE * weight && SCALE * n == x * scaled
    ensures n == x * weight
  {
    assert x * scaled == SCALE * (x * weight);
  }

  lemma {:induction false} PartFits(price: int, part: nat, quantity: nat, e: Economics, m: nat, charge: ChargeModel, most: nat)
    requires ValidCharge(charge) && part <= quantity && e.units > 0 && m > 0 && e.multiplier == SCALE * m
    requires Abs(price) * quantity * (m * e.units) <= ROOM && PartsCharged(price, quantity, m * e.units, charge, most)
    ensures PartTax(price, part, e, charge).Ok? && 0 <= PartTax(price, part, e, charge).value <= most
  {
    if part > 0 {
      PartOf(Abs(price), part, quantity);
      WeightPositive(m, e.units);
      PartOf(m * e.units, Abs(price) * part, Abs(price) * quantity);
      NotionalIs(price, part, e, m);
      assert ChargedAt(price * part * (m * e.units), part, Sell, charge, most);
      if Applies(charge.sides, Sell) {
        ChargeRefinesDirectForm(price * part * (m * e.units), part, Sell, charge);
      }
    }
  }

  /** A sell whose parts can be charged can be taxed however much of it is matched. */
  lemma {:induction false} SplitFits(price: int, quantity: nat, e: Economics, m: nat, model: TaxModel, most: nat)
    requires ValidTaxModel(model) && e.units > 0 && m > 0 && e.multiplier == SCALE * m && 2 * most <= ROOM
    requires Abs(price) * quantity * (m * e.units) <= ROOM
    requires PartsCharged(price, quantity, m * e.units, model.ordinary, most) && PartsCharged(price, quantity, m * e.units, model.dayTrade, most)
    ensures Assessable(SplitAssessment(e, model), price, quantity, 2 * most)
  {
    var tax := SplitAssessment(e, model);
    forall matched: nat | matched <= quantity ensures AssessedAt(tax, price, quantity, matched, 2 * most) {
      PartFits(price, matched, quantity, e, m, model.dayTrade, most);
      PartFits(price, quantity - matched, quantity, e, m, model.ordinary, most);
    }
  }

  lemma {:induction false} SellTaxFits(date: int, price: int, quantity: nat, buys: seq<DayTradeBuy>, sells: seq<DayTradeSell>, tax: Assessment, most: nat)
    requires Assessable(tax, price, quantity, most)
    ensures var r := SellTax(date, price, quantity, buys, sells, tax); r.Ok? && 0 <= r.value.tax <= most
  {
    var c := ConsumeBuys(buys, date, quantity);
    ConsumeBuysBalance(buys, date, quantity, date);
    assert AssessedAt(tax, price, quantity, quantity - c.remaining, most);
  }

  /** What a fill's tax needs: its own charge; or, on a day that trades are matched on, a sell's parts or the queued sells. */
  ghost predicate TaxFits(config: LedgerConfig, s: LedgerState, fill: FillRecord, notional: int, most: nat)
    requires AcceptsFills(config)
  {
    match config.dayTrade
    case None => ChargedAt(notional, fill.quantity.value, fill.side, config.tax, most)
    case Some(model) =>
      exists date :: DayTaxFits(config, model, date, s, fill, notional, most)
  }

  ghost predicate DayTaxFits(config: LedgerConfig, model: TaxModel, date: int, s: LedgerState, fill: FillRecord, notional: int, most: nat)
    requires ValidTaxModel(model)
  {
    && IsI64(fill.matchTime + model.offsetMinutes * 60_000_000) && InDay(date, fill.matchTime, model.offsetMinutes)
    && CivilDate.MIN_EPOCH_DAYS <= date <= CivilDate.MAX_EPOCH_DAYS
    && if !MatchesOn(model, date) then ChargedAt(notional, fill.quantity.value, fill.side, model.ordinary, most)
       else if fill.side == Sell then Assessable(SplitAssessment(config.economics, model), fill.price, fill.quantity.value, most)
       else QueueFits(s.sells, SplitAssessment(config.economics, model), most) && |s.sells| * most <= ROOM
  }

  lemma {:induction false} TaxKnown(config: LedgerConfig, s: LedgerState, fill: FillRecord, notional: int, most: nat)
    requires AcceptsFills(config) && TaxFits(config, s, fill, notional, most) && most <= ROOM
    ensures FillTax(config, s, fill, notional).Ok? && Abs(FillTax(config, s, fill, notional).value.tax) <= ROOM
  {
    match config.dayTrade
    case None => ChargedNotNegative(notional, fill.quantity.value, fill.side, config.tax);
    case Some(model) =>
      var date :| DayTaxFits(config, model, date, s, fill, notional, most);
      TradingDateExactly(fill.matchTime, model.offsetMinutes, date);
      DayTaxKnown(config, model, date, s, fill, notional, most);
  }

  lemma {:induction false} ChargedNotNegative(notional: int, quantity: nat, side: OrderSide, charge: ChargeModel)
    requires ValidCharge(charge)
    ensures Charge(notional, quantity, side, charge).Ok? ==> Charge(notional, quantity, side, charge).value >= 0
  {
    if Applies(charge.sides, side) {
      ChargeRefinesDirectForm(notional, quantity, side, charge);
    }
  }

  lemma {:induction false} DayTaxKnown(config: LedgerConfig, model: TaxModel, date: int, s: LedgerState, fill: FillRecord, notional: int, most: nat)
    requires ValidTaxModel(model) && DayTaxFits(config, model, date, s, fill, notional, most) && most <= ROOM
    requires TradingDate(fill.matchTime, model.offsetMinutes) == Ok(date)
    ensures var r := TaxForFill(fill, notional, s.buys, s.sells, config.economics, model); r.Ok? && Abs(r.value.tax) <= ROOM
  {
    assert Covers(model, date) <==> MatchesOn(model, date);
    var tax := SplitAssessment(config.economics, model);
    if !MatchesOn(model, date) {
      ChargedNotNegative(notional, fill.quantity.value, fill.side, model.ordinary);
    } else if fill.side == Sell {
      SellTaxFits(date, fill.price, fill.quantity.value, s.buys, s.sells, tax, most);
    } else {
      RematchFits(s.sells, date, fill.quantity.value, 0, tax, most);
    }
  }

  // ------------------------------------------------------------------- main result

  function Delta(fill: FillRecord): int {
    match fill.side
    case Buy => fill.quantity.value
    case Sell => 0 - fill.quantity.value
  }

  /** A fill whose amounts leave room and whose charges are known is booked. */
  lemma {:induction false} FillSucceeds(config: LedgerConfig, s: LedgerState, fill: FillRecord, most: nat)
    requires AcceptsFills(config) && Roomy(s.position, s.basis, Delta(fill), fill.price, config.economics) && most <= ROOM
    requires Abs(s.cash) <= ROOM && Abs(s.realized) <= ROOM && Abs(s.totalFee) <= ROOM && Abs(s.totalTax) <= ROOM
    requires var notional := fill.price * fill.quantity.value * (config.economics.multiplier / SCALE * config.economics.units);
      ChargedAt(notional, fill.quantity.value, fill.side, config.fee, most) && TaxFits(config, s, fill, notional, most)
    ensures ApplyFill(EffectsOf(config), s, fill).Ok?
  {
    var e, m, q := config.economics, config.economics.multiplier / SCALE, fill.quantity.value;
    var notional := fill.price * q * (m * e.units);
    NotionalFits(s.position, s.basis, Delta(fill), fill.price, e, m, q);
    ChargedNotNegative(notional, q, fill.side, config.fee);
    TaxKnown(config, s, fill, notional, most);
    if s.position == 0 || Sign(s.position) == Sign(Delta(fill)) {
      OpeningFits(s.position, s.basis, Delta(fill), fill.price, e);
    } else {
      ClosingFits(s.position, s.basis, Delta(fill), fill.price, e);
    }
    var moved := TransitionPosition(s.position, s.basis, SignedQuantity(fill), fill.price, e);
    Booked(config, s, fill, notional, Charge(notional, q, fill.side, config.fee).value, FillTax(config, s, fill, notional).value, moved.value);
  }

  lemma {:induction false} NotionalFits(position: int, basis: int, delta: int, price: int, e: Economics, m: nat, quantity: nat)
    requires Roomy(position, basis, delta, price, e) && quantity == Abs(delta) && m == e.multiplier / SCALE
    ensures ScaleByQuantity(price, quantity, e) == Ok(price * quantity * (m * e.units)) && Abs(price * quantity * (m * e.units)) <= ROOM
  {
    WeightPositive(m, e.units);
    PartOf(m * e.units, Abs(price) * quantity, Abs(price) * quantity + Abs(basis) + 1);
    SizeOfProduct(price, quantity);
    SizeOfProduct(price * quantity, m * e.units);
    NotionalIs(price, quantity, e, m);
  }

  lemma {:induction false} CashFits(model: AccountingModel, side: OrderSide, notional: int, realized: int, fee: int, tax: int)
    requires Abs(notional) <= ROOM && Abs(realized) <= ROOM && Abs(fee) <= ROOM && Abs(tax) <= ROOM
    ensures var r := CashDelta(model, side, notional, realized, fee, tax); r.Ok? && Abs(r.value) <= 3 * ROOM
  {
  }

  lemma {:induction false} Commits(s: LedgerState, orderId: OrderId, effect: FillEffect)
    requires Abs(effect.cashDelta) <= 3 * ROOM && Abs(effect.fee) <= ROOM && Abs(effect.taxed.tax) <= ROOM && Abs(effect.moved.realized) <= ROOM
    requires Abs(s.cash) <= ROOM && Abs(s.realized) <= ROOM && Abs(s.totalFee) <= ROOM && Abs(s.totalTax) <= ROOM
    ensures Commit(s, orderId, effect).Ok?
  {
  }

  lemma {:induction false} Booked(config: LedgerConfig, s: LedgerState, fill: FillRecord, notional: int, fee: int, taxed: TaxOutcome, moved: Transition)
    requires AcceptsFills(config) && ScaleByQuantity(fill.price, fill.quantity.value, config.economics) == Ok(notional)
    requires Charge(notional, fill.quantity.value, fill.side, config.fee) == Ok(fee) && FillTax(config, s, fill, notional) == Ok(taxed)
    requires TransitionPosition(s.position, s.basis, SignedQuantity(fill), fill.price, config.economics) == Ok(moved)
    requires Abs(notional) <= ROOM && Abs(fee) <= ROOM && Abs(taxed.tax) <= ROOM && Abs(moved.realized) <= ROOM
    requires Abs(s.cash) <= ROOM && Abs(s.realized) <= ROOM && Abs(s.totalFee) <= ROOM && Abs(s.totalTax) <= ROOM
    ensures ApplyFill(EffectsOf(config), s, fill).Ok?
  {
    CashFits(config.model, fill.side, notional, moved.realized, fee, taxed.tax);
    var effect := FillEffect(CashDelta(config.model, fill.side, notional, moved.realized, fee, taxed.tax).value, fee, taxed, moved);
    EffectIs(config, s, fill, notional, effect);
    Commits(s, fill.orderId, effect);
  }

  lemma {:induction false} EffectIs(config: LedgerConfig, s: LedgerState, fill: FillRecord, notional: int, effect: FillEffect)
    requires AcceptsFills(config) && ScaleByQuantity(fill.price, fill.quantity.value, config.economics) == Ok(notional)
    requires Charge(notional, fill.quantity.value, fill.side, config.fee) == Ok(effect.fee) && FillTax(config, s, fill, notional) == Ok(effect.taxed)
    requires TransitionPosition(s.position, s.basis, SignedQuantity(fill), fill.price, config.economics) == Ok(effect.moved)
    requires CashDelta(config.model, fill.side, notional, effect.moved.realized, effect.fee, effect.taxed.tax) == Ok(effect.cashDelta)
    ensures EffectOf(config, s, fill) == Ok(effect)
  {
  }
}
