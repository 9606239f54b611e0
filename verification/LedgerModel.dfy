/** One instrument's ledger as a value: a fill's effect on it, and what holds after any run of fills. */
module LedgerModel {
  import opened Wrappers
  import opened MachineIntegers
  import opened MarketTypes
  import opened AccountingErrors
  import opened ExactArithmetic
  import opened PositionAccounting
  import opened DayTradeTax
  import opened DayTradeFifo

  datatype AccountingModel = EquityV1 | FuturesV1 | OptionsV1

  datatype LedgerConfig = LedgerConfig(initialCash: i128, economics: Economics, fee: ChargeModel, tax: ChargeModel,
                                       model: AccountingModel, dayTrade: Option<TaxModel>)

  datatype FillCost = FillCost(orderId: OrderId, fee: int, tax: int)

  datatype LedgerState = LedgerState(cash: i128, position: i128, basis: i128, averageCost: Option<int>, realized: i128,
                                     totalFee: i128, totalTax: i128, buys: seq<DayTradeBuy>, sells: seq<DayTradeSell>,
                                     fillCosts: seq<FillCost>)

  function Opening(config: LedgerConfig): LedgerState {
    LedgerState(config.initialCash, 0, 0, None, 0, 0, 0, [], [], [])
  }

  predicate ValidModels(e: Economics, fee: ChargeModel, tax: ChargeModel) {
    ValidEconomics(e) && ValidCharge(fee) && ValidCharge(tax)
  }

  /** The checks a fill makes first. A day-trade model comes from its own constructor. */
  predicate AcceptsFills(config: LedgerConfig) {
    && ValidModels(config.economics, config.fee, config.tax)
    && (config.dayTrade.Some? ==>
          && ValidTaxModel(config.dayTrade.value)
          && config.model == EquityV1)
  }

  function SignedQuantity(fill: FillRecord): int {
    if fill.side == Buy then fill.quantity.value else 0 - fill.quantity.value
  }

  function FillTax(config: LedgerConfig, s: LedgerState, fill: FillRecord, notional: int): Result<TaxOutcome, AccountingError>
    requires AcceptsFills(config)
  {
    match config.dayTrade
    case None =>
      var tax :- Charge(notional, fill.quantity.value, fill.side, config.tax);
      Ok(TaxOutcome(tax, s.buys, s.sells))
    case Some(m) => TaxForFill(fill, notional, s.buys, s.sells, config.economics, m)
  }

  function CashDelta(model: AccountingModel, side: OrderSide, notional: int, realized: int, fee: int, tax: int):
    Result<int, AccountingError>
  {
    if model == FuturesV1 then
      var afterFee :- Checked(realized - fee);
      Checked(afterFee - tax)
    else if side == Buy then
      var withFee :- Checked(notional + fee);
      var cost :- Checked(withFee + tax);
      Checked(0 - cost)
    else
      var afterFee :- Checked(notional - fee);
      Checked(afterFee - tax)
  }

  /** Everything a fill is going to change, computed before anything does. */
  datatype FillEffect = FillEffect(cashDelta: int, fee: int, taxed: TaxOutcome, moved: Transition)

  function EffectOf(config: LedgerConfig, s: LedgerState, fill: FillRecord): Result<FillEffect, AccountingError> {
    if !AcceptsFills(config) then Err(InvalidModel) else
    var notional :- ScaleByQuantity(fill.price, fill.quantity.value, config.economics);
    var fee :- Charge(notional, fill.quantity.value, fill.side, config.fee);
    var taxed :- FillTax(config, s, fill, notional);
    var moved :- TransitionPosition(s.position, s.basis, SignedQuantity(fill), fill.price, config.economics);
    var cashDelta :- CashDelta(config.model, fill.side, notional, moved.realized, fee, taxed.tax);
    Ok(FillEffect(cashDelta, fee, taxed, moved))
  }

  function Commit(s: LedgerState, orderId: OrderId, effect: FillEffect): Result<LedgerState, AccountingError> {
    var FillEffect(cashDelta, fee, taxed, moved) := effect;
    var cash :- Checked(s.cash + cashDelta);
    var totalFee :- Checked(s.totalFee + fee);
    var totalTax :- Checked(s.totalTax + taxed.tax);
    var realized :- Checked(s.realized + moved.realized);
    Ok(LedgerState(cash, moved.position, moved.basis, moved.averageCost, realized, totalFee, totalTax,
                   taxed.buys, taxed.sells, s.fillCosts + [FillCost(orderId, fee, taxed.tax)]))
  }

  type Effects = (LedgerState, FillRecord) -> Result<FillEffect, AccountingError>

  function EffectsOf(config: LedgerConfig): Effects {
    (s: LedgerState, fill: FillRecord) => EffectOf(config, s, fill)
  }

  function ApplyFill(effects: Effects, s: LedgerState, fill: FillRecord): Result<LedgerState, AccountingError> {
    var effect :- effects(s, fill);
    Commit(s, fill.orderId, effect)
  }

  function Run(effects: Effects, start: LedgerState, fills: seq<FillRecord>): Result<LedgerState, AccountingError> {
    if fills == [] then Ok(start) else
    var s :- Run(effects, start, fills[..|fills| - 1]);
    ApplyFill(effects, s, fills[|fills| - 1])
  }

  function Replay(config: LedgerConfig, fills: seq<FillRecord>): Result<LedgerState, AccountingError> {
    Run(EffectsOf(config), Opening(config), fills)
  }

  /** What holds at the start and what every fill keeps holds after any run. */
  lemma {:induction false} RunKeeps(effects: Effects, start: LedgerState, fills: seq<FillRecord>, s: LedgerState,
                                    inv: (seq<FillRecord>, LedgerState) -> bool)
    requires Run(effects, start, fills) == Ok(s) && inv([], start)
    requires forall before, earlier, fill, after ::
      inv(before, earlier) && ApplyFill(effects, earlier, fill) == Ok(after) ==> inv(before + [fill], after)
    ensures inv(fills, s)
  {
    if fills != [] {
      var before, fill := fills[..|fills| - 1], fills[|fills| - 1];
      RunKeeps(effects, start, before, Run(effects, start, before).value, inv);
      assert fills == before + [fill];
    }
  }

  /** Every prefix of a run that succeeds is a run, one fill after the other. */
  lemma {:induction false} RunContinues(effects: Effects, start: LedgerState, fills: seq<FillRecord>, n: nat)
    requires n < |fills| && Run(effects, start, fills).Ok?
    ensures Run(effects, start, fills[..n]).Ok? && ApplyFill(effects, Run(effects, start, fills[..n]).value, fills[n]).Ok?
    ensures fills[..n + 1] == fills[..n] + [fills[n]]
    decreases |fills|
  {
    var before := fills[..|fills| - 1];
    if n < |before| {
      assert before[..n] == fills[..n];
      RunContinues(effects, start, before, n);
    }
  }

  // ------------------------------------------------------- conservation of cash

  function NetFlow(fills: seq<FillRecord>): int {
    if fills == [] then 0
    else NetFlow(fills[..|fills| - 1]) + SignedQuantity(fills[|fills| - 1]) * fills[|fills| - 1].price
  }

  function NetQuantity(fills: seq<FillRecord>): int {
    if fills == [] then 0 else NetQuantity(fills[..|fills| - 1]) + SignedQuantity(fills[|fills| - 1])
  }

  function FeesOf(costs: seq<FillCost>): int {
    if costs == [] then 0 else FeesOf(costs[..|costs| - 1]) + costs[|costs| - 1].fee
  }

  function TaxesOf(costs: seq<FillCost>): int {
    if costs == [] then 0 else TaxesOf(costs[..|costs| - 1]) + costs[|costs| - 1].tax
  }

  /** Exact in atoms: `cash` has moved by what the fills paid or realized, less their costs. */
  ghost predicate Conserved(config: LedgerConfig, fills: seq<FillRecord>, s: LedgerState) {
    var weight := Weight(config.economics);
    && s.position == NetQuantity(fills)
    && (s.position == 0 ==> s.basis == 0 && s.averageCost == None)
    && SCALE * s.realized == (Sign(s.position) * s.basis - NetFlow(fills)) * weight
    && (config.model != FuturesV1 ==>
          SCALE * (s.cash - config.initialCash + s.totalFee + s.totalTax) == -NetFlow(fills) * weight)
    && (config.model == FuturesV1 ==> s.cash == config.initialCash + s.realized - s.totalFee - s.totalTax)
    && |s.fillCosts| == |fills|
    && s.totalFee == FeesOf(s.fillCosts) && s.totalTax == TaxesOf(s.fillCosts)
  }

  /** The parts a successful fill is made of. */
  lemma {:induction false} FillParts(config: LedgerConfig, s: LedgerState, fill: FillRecord, after: LedgerState)
    returns (notional: int, fee: int, taxed: TaxOutcome, moved: Transition)
    requires ApplyFill(EffectsOf(config), s, fill) == Ok(after)
    ensures AcceptsFills(config)
    ensures ScaleByQuantity(fill.price, fill.quantity.value, config.economics) == Ok(notional)
    ensures Charge(notional, fill.quantity.value, fill.side, config.fee) == Ok(fee)
    ensures FillTax(config, s, fill, notional) == Ok(taxed)
    ensures TransitionPosition(s.position, s.basis, SignedQuantity(fill), fill.price, config.economics) == Ok(moved)
    ensures Books(config, s, fill, notional, fee, taxed, moved, after)
  {
    notional := ScaleByQuantity(fill.price, fill.quantity.value, config.economics).value;
    fee := Charge(notional, fill.quantity.value, fill.side, config.fee).value;
    taxed := FillTax(config, s, fill, notional).value;
    moved := TransitionPosition(s.position, s.basis, SignedQuantity(fill), fill.price, config.economics).value;
  }

  /** How the parts of a fill are booked. */
  ghost predicate Books(config: LedgerConfig, s: LedgerState, fill: FillRecord, notional: int, fee: int, taxed: TaxOutcome,
                        moved: Transition, after: LedgerState) {
    && after.cash == s.cash - fee - taxed.tax
         + (if config.model == FuturesV1 then moved.realized else if fill.side == Buy then -notional else notional)
    && after.position == moved.position && after.basis == moved.basis && after.averageCost == moved.averageCost
    && after.realized == s.realized + moved.realized
    && after.totalFee == s.totalFee + fee && after.totalTax == s.totalTax + taxed.tax
    && after.buys == taxed.buys && after.sells == taxed.sells
    && after.fillCosts == s.fillCosts + [FillCost(fill.orderId, fee, taxed.tax)]
  }

  lemma {:induction false} FillConserves(config: LedgerConfig, fills: seq<FillRecord>, s: LedgerState, fill: FillRecord, after: LedgerState)
    requires Conserved(config, fills, s) && ApplyFill(EffectsOf(config), s, fill) == Ok(after)
    ensures Conserved(config, fills + [fill], after)
  {
    var notional, fee, taxed, moved := FillParts(config, s, fill, after);
    ScaleByQuantityExact(fill.price, fill.quantity.value, config.economics);
    TransitionConserves(s.position, s.basis, SignedQuantity(fill), fill.price, config.economics);
    BookingConserves(config, fills, s, fill, notional, fee, taxed, moved, after);
  }

  lemma {:induction false} BookingConserves(config: LedgerConfig, fills: seq<FillRecord>, s: LedgerState, fill: FillRecord, notional: int,
                         fee: int, taxed: TaxOutcome, moved: Transition, after: LedgerState)
    requires Conserved(config, fills, s) && Books(config, s, fill, notional, fee, taxed, moved, after)
    requires SCALE * notional == fill.price * fill.quantity.value * Weight(config.economics)
    requires moved.position == s.position + SignedQuantity(fill)
    requires moved.position == 0 ==> moved.basis == 0 && moved.averageCost == None
    requires Conserves(s.position, s.basis, SignedQuantity(fill), fill.price, config.economics, moved)
    ensures Conserved(config, fills + [fill], after)
  {
    var delta, weight := SignedQuantity(fill), Weight(config.economics);
    assert (fills + [fill])[..|fills|] == fills;
    assert after.fillCosts[..|s.fillCosts|] == s.fillCosts;
    FlowOfFill(fill, weight, notional);
    AddWeighted(Sign(s.position) * s.basis - NetFlow(fills),
                Sign(after.position) * after.basis - Sign(s.position) * s.basis - delta * fill.price, weight);
    AddWeighted(-NetFlow(fills), -(delta * fill.price), weight);
  }

  lemma {:induction false} FlowOfFill(fill: FillRecord, weight: int, notional: int)
    requires SCALE * notional == fill.price * fill.quantity.value * weight
    ensures SCALE * (if fill.side == Buy then -notional else notional) == -(SignedQuantity(fill) * fill.price) * weight
  {
    var v := fill.quantity.value as int;
    assert -(v * fill.price) * weight == -(fill.price * v * weight);
    assert -((0 - v) * fill.price) * weight == fill.price * v * weight;
  }

  lemma {:induction false} AddWeighted(x: int, y: int, weight: int)
    ensures x * weight + y * weight == (x + y) * weight
  {
  }

  /** Cash, realized result and signed basis stay exactly balanced over any run of fills. */
  lemma {:induction false} ReplayConserves(config: LedgerConfig, fills: seq<FillRecord>, s: LedgerState)
    requires Replay(config, fills) == Ok(s)
    ensures Conserved(config, fills, s)
  {
    forall before, earlier, fill, after
      | Conserved(config, before, earlier) && ApplyFill(EffectsOf(config), earlier, fill) == Ok(after)
      ensures Conserved(config, before + [fill], after)
    {
      FillConserves(config, before, earlier, fill, after);
    }
    RunKeeps(EffectsOf(config), Opening(config), fills, s, (fs, t) => Conserved(config, fs, t));
  }

  /** The identity between cash and the rounded cost basis. */
  ghost predicate CashBalanced(config: LedgerConfig, s: LedgerState) {
    if config.model == FuturesV1
    then s.cash == config.initialCash + s.realized - s.totalFee - s.totalTax
    else SCALE * (s.cash - config.initialCash - s.realized + s.totalFee + s.totalTax)
         + Weight(config.economics) * Sign(s.position) * s.basis == 0
  }

  /** Nothing rounded is lost or gained, after any fills. */
  lemma {:induction false} CashIdentity(config: LedgerConfig, fills: seq<FillRecord>, s: LedgerState)
    requires Replay(config, fills) == Ok(s)
    ensures CashBalanced(config, s)
  {
    ReplayConserves(config, fills, s);
    ConservedIsBalanced(config, fills, s);
  }

  lemma {:induction false} ConservedIsBalanced(config: LedgerConfig, fills: seq<FillRecord>, s: LedgerState)
    requires Conserved(config, fills, s)
    ensures CashBalanced(config, s)
  {
    BalanceOut(s.cash - config.initialCash + s.totalFee + s.totalTax, s.realized, NetFlow(fills), Sign(s.position), s.basis,
               Weight(config.economics));
  }

  lemma {:induction false} BalanceOut(cash: int, realized: int, flow: int, sign: int, basis: int, weight: int)
    requires SCALE * realized == (sign * basis - flow) * weight
    ensures SCALE * cash == -flow * weight ==> SCALE * (cash - realized) + weight * sign * basis == 0
  {
    AddWeighted(sign * basis - flow, flow, weight);
    assert weight * sign * basis == (sign * basis) * weight;
    assert -flow * weight == -(flow * weight);
  }

  /** Back at a flat position, the realized result is the signed price flow times the contract's
      weight, whatever the path and however often the basis was rounded. */
  lemma {:induction false} FlatRealizedIsNetFlow(config: LedgerConfig, fills: seq<FillRecord>, s: LedgerState)
    requires Replay(config, fills) == Ok(s) && NetQuantity(fills) == 0
    ensures s.position == 0 && s.basis == 0 && s.averageCost == None
    ensures SCALE * s.realized == -NetFlow(fills) * Weight(config.economics)
    ensures s.cash == config.initialCash + s.realized - s.totalFee - s.totalTax
  {
    ReplayConserves(config, fills, s);
    FlatConserved(config, fills, s);
  }

  lemma {:induction false} FlatConserved(config: LedgerConfig, fills: seq<FillRecord>, s: LedgerState)
    requires Conserved(config, fills, s) && NetQuantity(fills) == 0
    ensures s.position == 0 && s.basis == 0 && s.averageCost == None
    ensures SCALE * s.realized == -NetFlow(fills) * Weight(config.economics)
    ensures s.cash == config.initialCash + s.realized - s.totalFee - s.totalTax
  {
    ConservedIsBalanced(config, fills, s);
  }

  ghost predicate PricesWithin(fills: seq<FillRecord>, lo: int, hi: int) {
    forall f :: f in fills ==> lo <= f.price <= hi
  }

  /** In a range of prices that rounding keeps, the basis stays between the lowest and the highest of them. */
  lemma {:induction false} BasisStaysWithinTradedPrices(config: LedgerConfig, fills: seq<FillRecord>, s: LedgerState, lo: int, hi: int)
    requires Replay(config, fills) == Ok(s) && PricesWithin(fills, lo, hi) && RangeIsKept(lo, hi)
    ensures BasisWithin(lo, hi, s.basis, s.position)
  {
    var inv := (fs, t: LedgerState) => PricesWithin(fs, lo, hi) ==> BasisWithin(lo, hi, t.basis, t.position);
    forall before, earlier, fill, after
      | inv(before, earlier) && ApplyFill(EffectsOf(config), earlier, fill) == Ok(after)
      ensures inv(before + [fill], after)
    {
      if PricesWithin(before + [fill], lo, hi) {
        assert forall f :: f in before ==> f in before + [fill];
        var notional, fee, taxed, moved := FillParts(config, earlier, fill, after);
        TransitionKeepsBasisWithin(lo, hi, earlier.position, earlier.basis, SignedQuantity(fill), fill.price, config.economics);
      }
    }
    RunKeeps(EffectsOf(config), Opening(config), fills, s, inv);
  }

  /** The day-trade queues and the tax total of a ledger are those of the tax run alone. */
  ghost predicate RunsTax(config: LedgerConfig, m: TaxModel, fills: seq<FillRecord>, s: LedgerState)
    requires ValidTaxModel(m)
  {
    TaxRun(fills, config.economics, m) == Ok(TaxState(s.totalTax, s.buys, s.sells))
  }

  lemma {:induction false} ReplayRunsTax(config: LedgerConfig, m: TaxModel, fills: seq<FillRecord>, s: LedgerState)
    requires Replay(config, fills) == Ok(s) && config.dayTrade == Some(m) && ValidTaxModel(m)
    ensures RunsTax(config, m, fills, s)
  {
    forall before, earlier, fill, after
      | RunsTax(config, m, before, earlier) && ApplyFill(EffectsOf(config), earlier, fill) == Ok(after)
      ensures RunsTax(config, m, before + [fill], after)
    {
      FillRunsTax(config, m, before, earlier, fill, after);
    }
    RunKeeps(EffectsOf(config), Opening(config), fills, s, (fs, t) => RunsTax(config, m, fs, t));
  }

  lemma {:induction false} FillRunsTax(config: LedgerConfig, m: TaxModel, before: seq<FillRecord>, s: LedgerState, fill: FillRecord, after: LedgerState)
    requires config.dayTrade == Some(m) && ValidTaxModel(m)
    requires RunsTax(config, m, before, s) && ApplyFill(EffectsOf(config), s, fill) == Ok(after)
    ensures RunsTax(config, m, before + [fill], after)
  {
    var notional, fee, taxed, moved := FillParts(config, s, fill, after);
    StepTax(TaxState(s.totalTax, s.buys, s.sells), fill, notional, taxed, config.economics, m);
    assert (before + [fill])[..|before|] == before;
    UnfoldTaxRun(before + [fill], config.economics, m);
  }

  lemma {:induction false} StepTax(st: TaxState, fill: FillRecord, notional: int, taxed: TaxOutcome, e: Economics, m: TaxModel)
    requires ValidTaxModel(m) && ScaleByQuantity(fill.price, fill.quantity.value, e) == Ok(notional)
    requires TaxForFill(fill, notional, st.buys, st.sells, e, m) == Ok(taxed)
    ensures TaxStep(st, fill, e, m) == Ok(TaxState(st.total + taxed.tax, taxed.buys, taxed.sells))
  {
  }

  lemma {:induction false} UnfoldTaxRun(fills: seq<FillRecord>, e: Economics, m: TaxModel)
    requires ValidTaxModel(m) && fills != [] && TaxRun(fills[..|fills| - 1], e, m).Ok?
    ensures TaxRun(fills, e, m) == TaxStep(TaxRun(fills[..|fills| - 1], e, m).value, fills[|fills| - 1], e, m)
  {
  }

  /** A day-trading ledger has paid the tax of its sells at their final matched quantities. */
  lemma {:induction false} LedgerTaxIsFifoTax(config: LedgerConfig, m: TaxModel, fills: seq<FillRecord>, s: LedgerState)
    requires Replay(config, fills) == Ok(s) && config.dayTrade == Some(m) && ValidTaxModel(m)
    ensures FifoTax(fills, |SalesOf(fills, m)|, SplitAssessment(config.economics, m), m) == Ok(s.totalTax)
    ensures s.totalTax >= 0
  {
    ReplayRunsTax(config, m, fills, s);
    BookedTaxIsFifoTax(fills, config.economics, m);
    BookedTaxNonNegative(fills, config.economics, m);
  }

  // ------------------------------------------------------------------ marking

  /** `None` when a position is open and there is no mark. */
  function UnrealizedPnl(config: LedgerConfig, s: LedgerState, mark: Option<int>): Result<Option<int>, AccountingError> {
    if s.position == 0 then Ok(Some(0))
    else if mark == None then Ok(None)
    else
      var marked :- Checked(mark.value * Abs(s.position));
      var difference :- Checked(if s.position > 0 then marked - s.basis else s.basis - marked);
      var pnl :- ScaleByQuantity(difference, 1, config.economics);
      Ok(Some(pnl))
  }

  /** What marking the position at `mark` adds to cash. */
  function MarkAdjustment(config: LedgerConfig, s: LedgerState, mark: int): Result<int, AccountingError> {
    if s.position == 0 then Ok(0)
    else if config.model == FuturesV1 then
      var pnl :- UnrealizedPnl(config, s, Some(mark));
      Ok(if pnl.Some? then pnl.value else 0)
    else
      var marked :- Checked(mark * Abs(s.position));
      var value :- ScaleByQuantity(marked, 1, config.economics);
      if s.position > 0 then Ok(value) else Checked(0 - value)
  }

  /** What a mark is worth beyond the basis, in price atoms; it counts for a long position and against a short one. */
  function MarkedGain(s: LedgerState, mark: int): int {
    if s.position > 0 then mark * Abs(s.position) - s.basis else s.basis - mark * Abs(s.position)
  }

  /** The unrealized result of an open position: when there is one, which it is, and why there is none. */
  lemma {:induction false} UnrealizedExactly(config: LedgerConfig, s: LedgerState, mark: int)
    requires s.position != 0
    ensures var r, gain := UnrealizedPnl(config, s, Some(mark)), MarkedGain(s, mark);
      && (r.Ok? <==> IsI128(mark * Abs(s.position)) && IsI128(gain) && Payable(gain, config.economics))
      && (r.Ok? ==> r.value.Some? && SCALE * r.value.value == gain * Weight(config.economics))
      && (r.Err? ==> r.error == Overflow || (r.error == PrecisionLoss && (gain * config.economics.multiplier) % SCALE != 0))
  {
    PayableExactly(MarkedGain(s, mark), config.economics);
  }

  /** The amount in price atoms that marking adds to cash: a future's gain, or what the position is worth. */
  function MarkedAmount(config: LedgerConfig, s: LedgerState, mark: int): int {
    if config.model == FuturesV1 then MarkedGain(s, mark) else mark * Abs(s.position)
  }

  lemma {:induction false} MarkAdjustmentExactly(config: LedgerConfig, s: LedgerState, mark: int)
    requires s.position != 0
    ensures var r, amount := MarkAdjustment(config, s, mark), MarkedAmount(config, s, mark);
      var owed := config.model != FuturesV1 && s.position < 0;
      && (r.Ok? <==> IsI128(mark * Abs(s.position)) && IsI128(amount) && Payable(amount, config.economics)
                     && (owed ==> IsI128(-(amount * config.economics.multiplier / SCALE * config.economics.units))))
      && (r.Ok? ==> SCALE * r.value == if owed then -(amount * Weight(config.economics)) else amount * Weight(config.economics))
      && (r.Err? ==> r.error == Overflow || (r.error == PrecisionLoss && (amount * config.economics.multiplier) % SCALE != 0))
  {
    if config.model == FuturesV1 {
      UnrealizedExactly(config, s, mark);
    } else {
      PayableExactly(mark * Abs(s.position), config.economics);
    }
  }

  /** Under every cash model, cash and the mark's adjustment are what was realized and what is
      unrealized at that mark, less the costs. */
  lemma {:induction false} MarkedEquity(config: LedgerConfig, s: LedgerState, mark: int)
    requires CashBalanced(config, s) && (s.position == 0 ==> s.basis == 0)
    requires UnrealizedPnl(config, s, Some(mark)).Ok? && MarkAdjustment(config, s, mark).Ok?
    ensures UnrealizedPnl(config, s, Some(mark)).value.Some?
    ensures s.cash + MarkAdjustment(config, s, mark).value
      == config.initialCash + s.realized + UnrealizedPnl(config, s, Some(mark)).value.value - s.totalFee - s.totalTax
  {
    var e, weight := config.economics, Weight(config.economics);
    if s.position != 0 && config.model != FuturesV1 {
      var marked := mark * Abs(s.position);
      var difference := if s.position > 0 then marked - s.basis else s.basis - marked;
      ScaleByQuantityExact(marked, 1, e);
      ScaleByQuantityExact(difference, 1, e);
      MarkDifference(s.position, s.basis, marked, weight);
    }
  }

  lemma {:induction false} MarkDifference(position: int, basis: int, marked: int, weight: int)
    requires position != 0
    ensures (if position > 0 then marked - basis else basis - marked) * 1 * weight
      == Sign(position) * (marked * 1 * weight) - weight * Sign(position) * basis
  {
  }
}
