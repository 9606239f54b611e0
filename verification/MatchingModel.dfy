/**
 The event-driven simulator: market and limit orders, first come first served, against what one
 market event shows.
 */
module MatchingModel {
  import opened Wrappers
  import opened MachineIntegers
  import opened MarketTypes
  import opened Book
  import opened Depth
  import opened Trading

  datatype EvidenceMode = TopOfBook | TradePrint
  datatype QuantityPolicy = Unlimited | Displayed

  datatype FillModel = FillModel(evidence: EvidenceMode, quantity: QuantityPolicy, delta: i128, marketDataLatencyMs: u64,
                                 orderLatencyMs: u64)

  datatype Setup = Setup(universe: set<InstrumentId>, unit: QuantityUnit, model: FillModel, policy: PricePolicy)

  datatype Status = Pending | PartiallyFilled | Filled | Cancelled

  /** `originTime` remembers the match time of the event that led to the order; the source keeps only
      `eligibleAt`. */
  datatype Order = Order(id: OrderId, intent: Intent, originOrdinal: u64, originTime: i64, eligibleAt: i64, segment: string,
                         sequence: u64, filled: nat, status: Status)

  datatype State = State(orders: seq<Order>, fills: seq<FillRecord>, nextSequence: u64)

  const Initial := State([], [], 1)

  datatype RejectionReason = OutsideUniverse | QuantityUnitMismatch | PriceNotAllowed | EntryIsBlocked

  datatype Feedback = Accepted | Rejected(reason: RejectionReason)

  datatype SimError = InvalidSlippage | LatencyOverflow | SequenceOverflow

  datatype Outcome<+T> = Outcome(state: State, result: Result<T, SimError>)

  datatype Trade = Trade(price: i128, quantity: Quantity)

  datatype Payload = QuoteSnapshot(book: Snapshot, trade: Option<Trade>) | BookSnapshot(book: Snapshot) | TradeBatch(trades: seq<Trade>)
                   | OtherPayload

  datatype Event = Event(instrument: InstrumentId, matchTime: i64, payload: Payload)

  /** A market event as a run sees it: its ordinal, and the trading phase. */
  datatype Tick = Tick(event: Event, ordinal: u64, volatilityInterruption: bool, matching: MatchingState, entry: NewOrderEntry)

  // ---------------------------------------------------------------- accepting

  function AddLatency(matchTime: i64, marketDataMs: u64, orderMs: u64): Result<i64, SimError> {
    if !IsU64(marketDataMs + orderMs) || !IsU64((marketDataMs + orderMs) * 1000) || !IsI64((marketDataMs + orderMs) * 1000)
       || !IsI64(matchTime + (marketDataMs + orderMs) * 1000)
    then Err(LatencyOverflow)
    else Ok(matchTime + (marketDataMs + orderMs) * 1000)
  }

  /** The event that an order answers: its ordinal and match time, and the phase at the time. */
  datatype Origin = Origin(ordinal: u64, matchTime: i64, entry: NewOrderEntry, segment: string)

  function Submit(setup: Setup, s: State, origin: Origin, id: OrderId, intent: Intent): Outcome<Feedback> {
    if intent.instrument !in setup.universe then Outcome(s, Ok(Rejected(OutsideUniverse)))
    else if intent.quantity.unit != setup.unit then Outcome(s, Ok(Rejected(QuantityUnitMismatch)))
    else if !LimitAccepted(intent.orderType, setup.policy) then Outcome(s, Ok(Rejected(PriceNotAllowed)))
    else if !EntryAllows(origin.entry, intent.orderType) then Outcome(s, Ok(Rejected(EntryIsBlocked)))
    else match AddLatency(origin.matchTime, setup.model.marketDataLatencyMs, setup.model.orderLatencyMs)
      case Err(e) => Outcome(s, Err(e))
      case Ok(eligibleAt) =>
        if !IsU64(s.nextSequence + 1) then Outcome(s, Err(SequenceOverflow)) else
        var order := Order(id, intent, origin.ordinal, origin.matchTime, eligibleAt, origin.segment, s.nextSequence, 0, Pending);
        Outcome(s.(nextSequence := s.nextSequence + 1, orders := s.orders + [order]), Ok(Accepted))
  }

  // ----------------------------------------------------------------- matching

  /** What an event shows to one side: a price, and how much of it is left. */
  datatype Shown = Shown(price: i128, quantity: Quantity)

  /** Buys and sells each have their own. */
  datatype Available = Available(buy: Option<Shown>, sell: Option<Shown>)

  function For(a: Available, side: OrderSide): Option<Shown> {
    if side == Buy then a.buy else a.sell
  }

  function With(a: Available, side: OrderSide, shown: Option<Shown>): Available {
    if side == Buy then a.(buy := shown) else a.(sell := shown)
  }

  function BestLevel(book: Snapshot, side: OrderSide): Option<Shown> {
    var levels := SideLevels(book, side);
    if levels == [] then None else Some(Shown(levels[0].price, levels[0].displayed))
  }

  function Evidence(event: Event, mode: EvidenceMode, side: OrderSide): Option<Shown> {
    match event.payload
    case QuoteSnapshot(book, trade) =>
      if mode == TopOfBook then BestLevel(book, side)
      else if trade.Some? then Some(Shown(trade.value.price, trade.value.quantity)) else None
    case BookSnapshot(book) => if mode == TopOfBook then BestLevel(book, side) else None
    case TradeBatch(trades) =>
      if mode == TradePrint && trades != [] then Some(Shown(trades[0].price, trades[0].quantity)) else None
    case OtherPayload => None
  }

  function Offered(setup: Setup, event: Event, side: OrderSide): Option<Shown> {
    var shown := Evidence(event, setup.model.evidence, side);
    if shown.Some? && Accepts(setup.policy, shown.value.price) then shown else None
  }

  predicate LimitTouched(intent: Intent, price: int) {
    match intent.orderType
    case Market => true
    case Limit(limit) => if intent.side == Buy then price <= limit else price >= limit
  }

  function Slipped(setup: Setup, price: i128, side: OrderSide): Result<i128, SimError> {
    var adjusted := if side == Buy then price + setup.model.delta else price - setup.model.delta;
    if setup.model.delta < 0 || !IsI128(adjusted) || !Accepts(setup.policy, adjusted) then Err(InvalidSlippage) else Ok(adjusted)
  }

  predicate Working(o: Order) {
    o.status == Pending || o.status == PartiallyFilled
  }

  predicate Eligible(o: Order, tick: Tick) {
    && Working(o) && tick.ordinal > o.originOrdinal && tick.event.matchTime >= o.eligibleAt
    && tick.event.instrument == o.intent.instrument
  }

  function Remaining(o: Order): nat {
    if o.filled < o.intent.quantity.value then o.intent.quantity.value - o.filled else 0
  }

  datatype Execution = Execution(price: i128, quantity: nat)

  /** What one order does with what is shown to its side. */
  function Execute(setup: Setup, o: Order, tick: Tick, shown: Option<Shown>): Result<Option<Execution>, SimError> {
    if !Eligible(o, tick) || shown == None || shown.value.quantity.unit != o.intent.quantity.unit
       || !LimitTouched(o.intent, shown.value.price)
    then Ok(None)
    else
      var price :- Slipped(setup, shown.value.price, o.intent.side);
      var value := if setup.model.quantity == Unlimited then Remaining(o) else Min(Remaining(o), shown.value.quantity.value);
      if !LimitTouched(o.intent, price) || value == 0 then Ok(None) else Ok(Some(Execution(price, value)))
  }

  function Filling(s: State, i: nat, tick: Tick, x: Execution): State
    requires i < |s.orders| && IsU64(x.quantity) && x.quantity > 0
  {
    var o := s.orders[i];
    var filled := o.(filled := o.filled + x.quantity);
    s.(orders := s.orders[i := filled.(status := if Remaining(filled) == 0 then Filled else PartiallyFilled)],
       fills := s.fills + [FillRecord(o.id, MarketEvent(tick.ordinal), tick.event.matchTime, o.intent.side, x.price,
                                      Quantity(x.quantity, o.intent.quantity.unit))])
  }

  function LeftOver(setup: Setup, a: Available, side: OrderSide, x: Execution): Available
    requires For(a, side).Some?
  {
    var shown := For(a, side).value;
    if setup.model.quantity == Unlimited then a
    else if x.quantity >= shown.quantity.value then With(a, side, None)
    else With(a, side, Some(shown.(quantity := Quantity(shown.quantity.value - x.quantity, shown.quantity.unit))))
  }

  /** The orders from index `i` on, oldest first. An error stops the rest but undoes nothing. */
  function MatchFrom(setup: Setup, s: State, tick: Tick, a: Available, i: nat): Outcome<()>
    decreases |s.orders| - i
  {
    if i >= |s.orders| then Outcome(s, Ok(())) else
    var side := s.orders[i].intent.side;
    match Execute(setup, s.orders[i], tick, For(a, side))
    case Err(e) => Outcome(s, Err(e))
    case Ok(None) => MatchFrom(setup, s, tick, a, i + 1)
    case Ok(Some(x)) => MatchFrom(setup, Filling(s, i, tick, x), tick, LeftOver(setup, a, side, x), i + 1)
  }

  function CancelWhere(s: State, which: Order -> bool): State {
    s.(orders := seq(|s.orders|, i requires 0 <= i < |s.orders| =>
                   if which(s.orders[i]) && Working(s.orders[i]) then s.orders[i].(status := Cancelled) else s.orders[i]))
  }

  predicate Interrupted(o: Order, instrument: InstrumentId) {
    o.intent.instrument == instrument && o.intent.orderType.Market?
  }

  function Evaluate(setup: Setup, s: State, tick: Tick): Outcome<()> {
    if tick.volatilityInterruption then Outcome(CancelWhere(s, (o: Order) => Interrupted(o, tick.event.instrument)), Ok(()))
    else if !tick.matching.Enabled? || tick.entry == EntryBlocked || tick.entry == EntryUnknown then Outcome(s, Ok(()))
    else MatchFrom(setup, s, tick, Available(Offered(setup, tick.event, Buy), Offered(setup, tick.event, Sell)), 0)
  }

  function CancelSegment(s: State, segment: string): State {
    CancelWhere(s, (o: Order) => o.segment == segment)
  }

  function CancelEndOfRun(s: State): State {
    CancelWhere(s, (o: Order) => true)
  }
}
