/** The ledger object: its fields change in place, fill by fill, and only when the whole fill succeeds. */
module Ledgers {
  import opened Wrappers
  import opened MachineIntegers
  import opened MarketTypes
  import opened AccountingErrors
  import opened ExactArithmetic
  import opened PositionAccounting
  import opened DayTradeTax
  import opened DayTradeFifo
  import opened LedgerModel

  class Ledger {
    const config: LedgerConfig
    var cash: i128
    var position: i128
    var basis: i128
    var averageCost: Option<int>
    var realized: i128
    var totalFee: i128
    var totalTax: i128
    var buys: seq<DayTradeBuy>
    var sells: seq<DayTradeSell>
    var fillCosts: seq<FillCost>
    var fills: seq<FillRecord>

    function State(): LedgerState
      reads this
    {
      LedgerState(cash, position, basis, averageCost, realized, totalFee, totalTax, buys, sells, fillCosts)
    }

    /** The state is the one its recorded fills lead to. */
    ghost predicate Valid()
      reads this
    {
      Replay(config, fills) == Ok(State())
    }

    constructor (config: LedgerConfig)
      ensures this.config == config && fills == [] && Valid()
    {
      this.config := config;
      cash := config.initialCash;
      position, basis, averageCost := 0, 0, None;
      realized, totalFee, totalTax := 0, 0, 0;
      buys, sells, fillCosts, fills := [], [], [], [];
    }

    /** A copy of a ledger, as a multi-instrument fill makes one before it commits. */
    constructor Copy(config: LedgerConfig, s: LedgerState, fills: seq<FillRecord>)
      requires Replay(config, fills) == Ok(s)
      ensures this.config == config && this.fills == fills && State() == s && Valid()
    {
      this.config := config;
      cash, position, basis, averageCost := s.cash, s.position, s.basis, s.averageCost;
      realized, totalFee, totalTax := s.realized, s.totalFee, s.totalTax;
      buys, sells, fillCosts, this.fills := s.buys, s.sells, s.fillCosts, fills;
    }

    /** Applies a fill atomically: on an error no field has changed. */
    method Apply(fill: FillRecord) returns (r: Result<(), AccountingError>)
      requires Valid()
      modifies this
      ensures Valid()
      ensures match ApplyFill(EffectsOf(config), old(State()), fill)
        case Ok(next) => r.Ok? && State() == next && fills == old(fills) + [fill]
        case Err(e) => r == Err(e) && State() == old(State()) && fills == old(fills)
    {
      var effect :- Assess(fill);
      r := Change(fill, effect);
      assert r.Ok? ==> fills[..|fills| - 1] == old(fills);
    }

    method Change(fill: FillRecord, effect: FillEffect) returns (r: Result<(), AccountingError>)
      modifies this
      ensures match Commit(old(State()), fill.orderId, effect)
        case Ok(next) => r.Ok? && State() == next && fills == old(fills) + [fill]
        case Err(e) => r == Err(e) && State() == old(State()) && fills == old(fills)
    {
      var moved, taxed := effect.moved, effect.taxed;
      var nextCash :- Checked(cash + effect.cashDelta);
      var nextFee :- Checked(totalFee + effect.fee);
      var nextTax :- Checked(totalTax + taxed.tax);
      var nextRealized :- Checked(realized + moved.realized);

      cash := nextCash;
      position, basis, averageCost := moved.position, moved.basis, moved.averageCost;
      realized, totalFee, totalTax := nextRealized, nextFee, nextTax;
      buys, sells := taxed.buys, taxed.sells;
      fillCosts := fillCosts + [FillCost(fill.orderId, effect.fee, taxed.tax)];
      fills := fills + [fill];
      return Ok(());
    }

    method Assess(fill: FillRecord) returns (r: Result<FillEffect, AccountingError>)
      ensures r == EffectOf(config, State(), fill)
    {
      if !AcceptsFills(config) {
        return Err(InvalidModel);
      }
      var notional :- ScaleByQuantity(fill.price, fill.quantity.value, config.economics);
      var fee :- Charge(notional, fill.quantity.value, fill.side, config.fee);
      var taxed :- TaxOf(fill, notional);
      var moved :- TransitionPosition(position, basis, SignedQuantity(fill), fill.price, config.economics);
      var cashDelta :- CashDelta(config.model, fill.side, notional, moved.realized, fee, taxed.tax);
      return Ok(FillEffect(cashDelta, fee, taxed, moved));
    }

    method TaxOf(fill: FillRecord, notional: int) returns (r: Result<TaxOutcome, AccountingError>)
      requires AcceptsFills(config)
      ensures r == FillTax(config, State(), fill, notional)
    {
      if config.dayTrade == None {
        var tax :- Charge(notional, fill.quantity.value, fill.side, config.tax);
        return Ok(TaxOutcome(tax, buys, sells));
      }
      var m := config.dayTrade.value;
      var date :- TradingDate(fill.matchTime, m.offsetMinutes);
      if !Covers(m, date) {
        var tax :- Charge(notional, fill.quantity.value, fill.side, m.ordinary);
        return Ok(TaxOutcome(tax, buys, sells));
      }
      r := MatchedTax(fill, date, SplitAssessment(config.economics, m));
    }

    /** The queues are cloned and matched in loops; the clones are returned, not stored. */
    method MatchedTax(fill: FillRecord, date: int, assess: Assessment) returns (r: Result<TaxOutcome, AccountingError>)
      ensures r == if fill.side == Buy then BuyTax(date, fill.quantity.value, buys, sells, assess)
                   else SellTax(date, fill.price, fill.quantity.value, buys, sells, assess)
    {
      var quantity := fill.quantity.value;
      if fill.side == Buy {
        var rematch :- RematchSellsInPlace(sells, date, quantity, assess);
        var open := if rematch.remaining > 0 then buys + [DayTradeBuy(date, rematch.remaining)] else buys;
        return Ok(TaxOutcome(rematch.adjustment, open, rematch.sells));
      }
      var left, remaining := ConsumeBuysInPlace(buys, date, quantity);
      ConsumeBuysBalance(buys, date, quantity, date);
      var matched := quantity - remaining;
      var assessed :- assess(fill.price, quantity, matched);
      var queued := if remaining > 0 then [DayTradeSell(date, fill.price, quantity, matched, assessed)] else [];
      return Ok(TaxOutcome(assessed, left, sells + queued));
    }

    /** Replaying the recorded fills rebuilds the same ledger: a reachable one always reconciles. */
    method Reconcile() returns (r: Result<(), AccountingError>)
      requires Valid()
      ensures r == Ok(())
    {
      var rebuilt := new Ledger(config);
      var i := 0;
      while i < |fills|
        invariant 0 <= i <= |fills| && fresh(rebuilt)
        invariant rebuilt.Valid() && rebuilt.config == config && rebuilt.fills == fills[..i]
        invariant unchanged(this)
      {
        RunContinues(EffectsOf(config), Opening(config), fills, i);
        var applied := rebuilt.Apply(fills[i]);
        if applied.Err? {
          return applied;
        }
        i := i + 1;
      }
      assert fills[..i] == fills;
      if rebuilt.State() != State() {
        return Err(Reconciliation);
      }
      return Ok(());
    }
  }
}
