/** What each fill of a run was charged, and what the average cost is, in terms of the configuration alone. */
module LedgerFills {
  import opened Wrappers
  import opened MachineIntegers
  import opened MarketTypes
  import opened AccountingErrors
  import opened ExactArithmetic
  import opened PositionAccounting
  import opened DayTradeTax
  import opened LedgerModel

  // ------------------------------------------------------------------ charges

  /** The base of a charge: the size of the notional, or so much a unit. */
  function BaseOf(charge: ChargeModel, notional: int, quantity: nat): int {
    match charge.basis
    case NotionalRate => if notional < 0 then -notional else notional
    case FixedPerUnit => quantity * 1_000_000_000_000_000_000
  }

  /** What a charge asks of a fill: nothing of the side it leaves out; of the other its rate, rounded to atoms and to
      the quantum, and at least its minimum. */
  ghost predicate Owes(charge: ChargeModel, notional: int, quantity: nat, side: OrderSide, paid: int)
    requires ValidCharge(charge)
  {
    if (charge.sides == BuyOnly && side == Sell) || (charge.sides == SellOnly && side == Buy) then paid == 0
    else exists atoms, units :: OwesUnits(charge, BaseOf(charge, notional, quantity), atoms, units, paid)
  }

  ghost predicate OwesUnits(charge: ChargeModel, base: int, atoms: int, units: int, paid: int)
    requires ValidCharge(charge)
  {
    && Rounds(charge.rounding, base * charge.rate, 1_000_000_000_000_000_000, atoms)
    && Rounds(charge.rounding, atoms, Power10(18 - charge.precision), units)
    && paid == Max(units * Power10(18 - charge.precision), charge.minimum)
  }

  lemma {:induction false} ChargeOwes(charge: ChargeModel, notional: int, quantity: nat, side: OrderSide, paid: int)
    requires ValidCharge(charge) && Charge(notional, quantity, side, charge) == Ok(paid)
    ensures Owes(charge, notional, quantity, side, paid)
  {
    if Applies(charge.sides, side) {
      ChargeRefinesDirectForm(notional, quantity, side, charge);
      var atoms, units :| && Rounds(charge.rounding, ChargedBase(notional, quantity, charge) * charge.rate, SCALE, atoms)
                          && Rounds(charge.rounding, atoms, Quantum(charge), units) && paid == Max(units * Quantum(charge), charge.minimum);
      assert OwesUnits(charge, BaseOf(charge, notional, quantity), atoms, units, paid);
    }
  }

  // -------------------------------------------------------------- trading days

  /** Day `date`, in the model's zone, holds the instant. */
  predicate InDay(date: int, matchTime: int, offsetMinutes: int) {
    date * 86_400_000_000 <= matchTime + offsetMinutes * 60_000_000 < (date + 1) * 86_400_000_000
  }

  /** Day trades are matched on a day that is eligible and not past the last valid one. */
  predicate MatchesOn(m: TaxModel, date: int) {
    date <= m.validThrough && (m.eligible || (match m.eligibleDates case None => false case Some(dates) => date in dates))
  }

  /** A date is found exactly when the local instant is a 64-bit one, and it is the day that holds it. */
  lemma {:induction false} TradingDateExactly(matchTime: int, offsetMinutes: int, date: int)
    ensures TradingDate(matchTime, offsetMinutes) == Ok(date) <==>
      && IsI64(matchTime + offsetMinutes * 60_000_000) && InDay(date, matchTime, offsetMinutes)
      && CivilDate.MIN_EPOCH_DAYS <= date <= CivilDate.MAX_EPOCH_DAYS
    ensures TradingDate(matchTime, offsetMinutes).Err? ==> TradingDate(matchTime, offsetMinutes) == Err(InvalidTradingDate)
  {
    var local := matchTime + offsetMinutes * 60_000_000;
    var days := local / 86_400_000_000;
    assert local == days * 86_400_000_000 + local % 86_400_000_000;
  }

  // ------------------------------------------------------------- one fill's costs

  /** What was recorded for a fill: the fee of the fee model; and the tax of the tax model, when there is no day-trade
      model, or of that model's ordinary tax, on a day it does not match on. */
  ghost predicate CostsOf(config: LedgerConfig, fill: FillRecord, cost: FillCost)
    requires AcceptsFills(config)
  {
    exists notional: int :: CostsAt(config, fill, cost, notional)
  }

  ghost predicate CostsAt(config: LedgerConfig, fill: FillRecord, cost: FillCost, notional: int)
    requires AcceptsFills(config)
  {
    && SCALE * notional == fill.price * fill.quantity.value * (config.economics.multiplier * config.economics.units)
    && cost.orderId == fill.orderId
    && Owes(config.fee, notional, fill.quantity.value, fill.side, cost.fee)
    && (config.dayTrade == None ==> Owes(config.tax, notional, fill.quantity.value, fill.side, cost.tax))
    && (config.dayTrade.Some? ==>
          exists date :: DayTaxAt(config.dayTrade.value, date, fill, notional, cost.tax))
  }

  ghost predicate DayTaxAt(m: TaxModel, date: int, fill: FillRecord, notional: int, tax: int)
    requires ValidCharge(m.ordinary)
  {
    && InDay(date, fill.matchTime, m.offsetMinutes)
    && (!MatchesOn(m, date) ==> Owes(m.ordinary, notional, fill.quantity.value, fill.side, tax))
  }

  lemma {:induction false} FillCosts(config: LedgerConfig, s: LedgerState, fill: FillRecord, after: LedgerState)
    requires ApplyFill(EffectsOf(config), s, fill) == Ok(after)
    ensures AcceptsFills(config) && after.fillCosts != []
    ensures after.fillCosts[..|after.fillCosts| - 1] == s.fillCosts
    ensures CostsOf(config, fill, after.fillCosts[|after.fillCosts| - 1])
  {
    var notional, fee, taxed, moved := FillParts(config, s, fill, after);
    ScaleByQuantityExact(fill.price, fill.quantity.value, config.economics);
    ChargeOwes(config.fee, notional, fill.quantity.value, fill.side, fee);
    if config.dayTrade == None {
      ChargeOwes(config.tax, notional, fill.quantity.value, fill.side, taxed.tax);
    } else {
      DayTaxOwes(config.dayTrade.value, config.economics, s, fill, notional, taxed);
    }
    assert CostsAt(config, fill, FillCost(fill.orderId, fee, taxed.tax), notional);
  }

  lemma {:induction false} DayTaxOwes(m: TaxModel, e: Economics, s: LedgerState, fill: FillRecord, notional: int, taxed: TaxOutcome)
    requires ValidTaxModel(m) && TaxForFill(fill, notional, s.buys, s.sells, e, m) == Ok(taxed)
    ensures exists date :: DayTaxAt(m, date, fill, notional, taxed.tax)
  {
    var date := TradingDate(fill.matchTime, m.offsetMinutes).value;
    TradingDateExactly(fill.matchTime, m.offsetMinutes, date);
    if !MatchesOn(m, date) {
      ChargeOwes(m.ordinary, notional, fill.quantity.value, fill.side, taxed.tax);
    }
    assert DayTaxAt(m, date, fill, notional, taxed.tax);
  }

  lemma {:induction false} OneCostEach(config: LedgerConfig, fills: seq<FillRecord>, s: LedgerState)
    requires Replay(config, fills) == Ok(s)
    ensures |s.fillCosts| == |fills|
  {
    ReplayConserves(config, fills, s);
  }

  lemma {:induction false} LastCost(config: LedgerConfig, fills: seq<FillRecord>, s: LedgerState) returns (earlier: LedgerState)
    requires Replay(config, fills) == Ok(s) && fills != []
    ensures Replay(config, fills[..|fills| - 1]) == Ok(earlier) && AcceptsFills(config)
    ensures |s.fillCosts| == |fills| && |earlier.fillCosts| == |fills| - 1 && s.fillCosts[..|fills| - 1] == earlier.fillCosts
    ensures CostsOf(config, fills[|fills| - 1], s.fillCosts[|fills| - 1])
  {
    earlier := Replay(config, fills[..|fills| - 1]).value;
    FillCosts(config, earlier, fills[|fills| - 1], s);
    OneCostEach(config, fills, s);
    OneCostEach(config, fills[..|fills| - 1], earlier);
  }

  /** Every fill of a run has its costs recorded, in order. */
  lemma {:induction false} ReplayCosts(config: LedgerConfig, fills: seq<FillRecord>, s: LedgerState, i: nat)
    requires Replay(config, fills) == Ok(s) && i < |fills|
    ensures |s.fillCosts| == |fills| && AcceptsFills(config) && CostsOf(config, fills[i], s.fillCosts[i])
    decreases |fills|
  {
    var earlier := LastCost(config, fills, s);
    if i < |fills| - 1 {
      ReplayCosts(config, fills[..|fills| - 1], earlier, i);
      assert s.fillCosts[i] == s.fillCosts[..|fills| - 1][i];
    }
  }

  /** A fill is refused for its configuration exactly when a constructor of the source would refuse one of its parts. */
  lemma {:induction false} InvalidModelExactly(config: LedgerConfig, s: LedgerState, fill: FillRecord)
    ensures AcceptsFills(config) <==>
      && config.economics.units > 0 && config.economics.multiplier > 0 && config.economics.provenance != ""
      && ProperCharge(config.fee) && ProperCharge(config.tax)
      && (config.dayTrade.Some? ==> config.model == EquityV1 && ProperTaxModel(config.dayTrade.value))
    ensures !AcceptsFills(config) ==> EffectOf(config, s, fill) == Err(InvalidModel)
  {
  }

  predicate ProperCharge(c: ChargeModel) {
    0 <= c.rate <= I128_MAX && 0 <= c.minimum <= I128_MAX && c.precision <= 18
  }

  /** Both taxes are on the notional of sells, and the day-trade rate is no higher. */
  predicate ProperTaxModel(m: TaxModel) {
    && ProperCharge(m.ordinary) && ProperCharge(m.dayTrade)
    && m.ordinary.basis == NotionalRate == m.dayTrade.basis && m.ordinary.sides == SellOnly == m.dayTrade.sides
    && m.dayTrade.rate <= m.ordinary.rate && -1440 < m.offsetMinutes < 1440
  }

  // ------------------------------------------------------------ a sell in two parts

  /** What one part of a sell owes; no part owes nothing, not even a minimum. */
  ghost predicate PartOwes(price: int, part: nat, e: Economics, charge: ChargeModel, paid: int)
    requires ValidCharge(charge)
  {
    if part == 0 then paid == 0 else exists notional :: PartOwesOn(price, part, e, charge, notional, paid)
  }

  ghost predicate PartOwesOn(price: int, part: nat, e: Economics, charge: ChargeModel, notional: int, paid: int)
    requires ValidCharge(charge)
  {
    SCALE * notional == price * part * (e.multiplier * e.units) && Owes(charge, notional, part, Sell, paid)
  }

  ghost predicate SplitsInto(price: int, quantity: nat, matched: nat, e: Economics, m: TaxModel, due: int, dayTrade: int, ordinary: int)
    requires ValidTaxModel(m)
  {
    && matched <= quantity && due == dayTrade + ordinary
    && PartOwes(price, matched, e, m.dayTrade, dayTrade) && PartOwes(price, quantity - matched, e, m.ordinary, ordinary)
  }

  lemma {:induction false} PartCharged(price: int, part: nat, e: Economics, charge: ChargeModel, paid: int)
    requires ValidCharge(charge) && PartTax(price, part, e, charge) == Ok(paid)
    ensures PartOwes(price, part, e, charge, paid)
  {
    if part > 0 {
      var notional := ScaleByQuantity(price, part, e).value;
      ScaleByQuantityExact(price, part, e);
      ChargeOwes(charge, notional, part, Sell, paid);
      assert PartOwesOn(price, part, e, charge, notional, paid);
    }
  }

  /** The matched part of a sell pays the day-trade tax, and the rest the ordinary one. */
  lemma {:induction false} SplitOwes(price: int, quantity: nat, matched: nat, e: Economics, m: TaxModel, due: int)
    requires ValidTaxModel(m) && SplitSellTax(price, quantity, matched, e, m) == Ok(due)
    ensures exists dayTrade, ordinary :: SplitsInto(price, quantity, matched, e, m, due, dayTrade, ordinary)
  {
    var dayTrade, ordinary := PartTax(price, matched, e, m.dayTrade).value, PartTax(price, quantity - matched, e, m.ordinary).value;
    PartCharged(price, matched, e, m.dayTrade, dayTrade);
    PartCharged(price, quantity - matched, e, m.ordinary, ordinary);
    assert SplitsInto(price, quantity, matched, e, m, due, dayTrade, ordinary);
  }

  // --------------------------------------------------------------- average cost

  /** The basis over the size of the position, rounded half up; a flat position has none. */
  ghost predicate AverageIs(s: LedgerState) {
    && (s.position == 0 <==> s.averageCost == None)
    && (s.position != 0 && s.basis >= 0 && 2 * (s.basis % Abs(s.position)) <= I128_MAX ==>
          Rounds(HalfUp, s.basis, Abs(s.position), s.averageCost.value))
  }

  lemma {:induction false} AverageMeaning(basis: int, position: int)
    requires AverageCost(basis, position).Ok?
    ensures var average := AverageCost(basis, position).value;
      && (position == 0 <==> average == None)
      && (position != 0 && basis >= 0 && 2 * (basis % Abs(position)) <= I128_MAX ==> Rounds(HalfUp, basis, Abs(position), average.value))
  {
    if position != 0 && basis >= 0 && 2 * (basis % Abs(position)) <= I128_MAX {
      RoundsHalfUp(basis, Abs(position));
    }
  }

  lemma {:induction false} RoundsHalfUp(n: nat, d: int)
    requires 0 < d <= I128_MAX && DivideRound(n, d, HalfUp).Ok? && 2 * (n % d) <= I128_MAX
    ensures Rounds(HalfUp, n, d, DivideRound(n, d, HalfUp).value)
  {
    DivideRoundMeetsPolicy(n, d, HalfUp);
    RestOf(n, d);
  }

  lemma {:induction false} RestOf(n: nat, d: int)
    requires d > 0
    ensures Abs(TruncRem(n, d)) == n % d
  {
  }

  /** After any run the average cost is that of the position. */
  lemma {:induction false} ReplayAverages(config: LedgerConfig, fills: seq<FillRecord>, s: LedgerState)
    requires Replay(config, fills) == Ok(s)
    ensures AverageIs(s)
  {
    if fills != [] {
      var before, last := fills[..|fills| - 1], fills[|fills| - 1];
      var earlier := Replay(config, before).value;
      var notional, fee, taxed, moved := FillParts(config, earlier, last, s);
      var share := TransitionShape(earlier.position, earlier.basis, SignedQuantity(last), last.price, config.economics);
      AverageMeaning(s.basis, s.position);
    }
  }
}
