/**
 The scheduled depth simulator as a state machine. `expect` in the source is the result
 `Err(Panicked)`; order identities are hashes there and arguments here.
 */
module ScheduledModel {
  import opened Wrappers
  import opened MachineIntegers
  import opened MarketTypes
  import opened Book
  import opened Depth
  import opened Trading

  /** `depthLevels` is 1 to 5, `maxStaleMs` positive and `delta` not negative. */
  datatype DepthModel = DepthModel(depthLevels: nat, maxStaleMs: u64, delta: i128)

  datatype InstrumentRules = InstrumentRules(unit: QuantityUnit, model: DepthModel, policy: PricePolicy)

  type Configs = map<InstrumentId, InstrumentRules>

  datatype Policy = DepthAtActivation | DepthUntilExpiry | AuctionCross | SettlementAtActivation

  datatype Request = Request(clientId: string, activateAt: i64, expireAt: Option<i64>, intent: Intent, policy: Policy)

  datatype FailureReason = MissingVisibleDepth | StaleVisibleDepth | MatchingDisabled | NewOrderEntryBlocked
                         | InsufficientVisibleDepth | PriceNotMarketable

  datatype Status = Scheduled | Active | PartiallyFilled | MatchAttempted | Filled | Failed(reason: FailureReason)
                  | Expired | Replaced | Cancelled

  datatype Order = Order(id: OrderId, request: Request, sequence: u64, filled: nat, status: Status)

  /** Where a fill's price came from: a visible book with these times, a settlement price, or a clearing price. */
  datatype Origin = FromDepth(matchTime: i64, visibleAt: i64) | FromSettlement | FromAuction(clearingPrice: int)

  datatype Fill = Fill(orderId: OrderId, instrument: InstrumentId, time: i64, side: OrderSide, level: nat, price: int,
                       quantity: nat, cumulative: nat, origin: Origin)

  datatype BookState = BookState(book: Snapshot, matchTime: i64, visibleAt: i64, consumedBids: Counts, consumedAsks: Counts)

  datatype TradingState = TradingState(matchTime: i64, visibleAt: i64, matching: MatchingState, entry: NewOrderEntry)

  /** `fills` has every fill recorded, `reported` every one whose feedback was then accepted. `published` remembers how
      many fills there were when a book was published; the source has no such field. */
  datatype State = State(books: map<InstrumentId, BookState>, trading: map<InstrumentId, TradingState>, orders: seq<Order>,
                         clients: map<string, OrderId>, fills: seq<Fill>, reported: seq<Fill>, nextSequence: u64,
                         published: map<InstrumentId, nat>)

  datatype SimError =
    | InstrumentOutsideUniverse | PriceNotAllowed | RegressingBookTime | RegressingTradingStateTime
    | ActivationBeforeDecision | ActivationTimeMismatch | ActivationOutOfOrder | ExpiryTimeMismatch
    | InvalidSettlementOrderType | UnitMismatch | UnknownClientOrder | UnknownOrder | ClientOrderAlreadyTerminal
    | OrderAlreadyTerminal | SequenceOverflow | StalenessOverflow | InvalidQuantity | FillFeedback | SweepFailed(error: DepthError) | Panicked

  /** An operation may change the state and still report an error. */
  datatype Outcome<+T> = Outcome(state: State, result: Result<T, SimError>)

  const Initial := State(map[], map[], [], map[], [], [], 1, map[])

  // ------------------------------------------------------------- publications

  datatype BookEvidence = BookEvidence(instrument: InstrumentId, book: Snapshot, trading: TradingState)

  function PublishTrading(configs: Configs, s: State, instrument: InstrumentId, t: TradingState): Outcome<()> {
    if instrument !in configs then Outcome(s, Err(InstrumentOutsideUniverse))
    else if instrument in s.trading && (t.visibleAt < s.trading[instrument].visibleAt || t.matchTime < s.trading[instrument].matchTime)
    then Outcome(s, Err(RegressingTradingStateTime))
    else Outcome(s.(trading := s.trading[instrument := t]), Ok(()))
  }

  predicate PricesAccepted(levels: seq<BookLevel>, policy: PricePolicy) {
    forall i :: 0 <= i < |levels| ==> Accepts(policy, levels[i].price)
  }

  function PublishBook(configs: Configs, s: State, e: BookEvidence): Outcome<()> {
    if e.instrument !in configs then Outcome(s, Err(InstrumentOutsideUniverse)) else
    var rules := configs[e.instrument];
    if BookUnit(e.book).Some? && BookUnit(e.book).value != rules.unit then Outcome(s, Err(SimError.UnitMismatch))
    else if !PricesAccepted(SideLevels(e.book, Sell), rules.policy) || !PricesAccepted(SideLevels(e.book, Buy), rules.policy)
    then Outcome(s, Err(PriceNotAllowed))
    else if e.instrument in s.books
            && (e.trading.visibleAt < s.books[e.instrument].visibleAt || e.trading.matchTime < s.books[e.instrument].matchTime)
    then Outcome(s, Err(RegressingBookTime))
    else
      var traded := PublishTrading(configs, s, e.instrument, e.trading);
      if traded.result.Err? then traded
      else
        var published := BookState(e.book, e.trading.matchTime, e.trading.visibleAt, [0, 0, 0, 0, 0], [0, 0, 0, 0, 0]);
        Outcome(traded.state.(books := s.books[e.instrument := published], published := s.published[e.instrument := |s.fills|]), Ok(()))
  }

  // ------------------------------------------------------- orders before activation

  function Find(orders: seq<Order>, id: OrderId): (r: Option<nat>)
    ensures r.Some? ==> r.value < |orders| && orders[r.value].id == id
    ensures r.Some? ==> forall i :: 0 <= i < r.value ==> orders[i].id != id
    ensures r == None ==> forall i :: 0 <= i < |orders| ==> orders[i].id != id
  {
    if orders == [] then None
    else if orders[0].id == id then Some(0)
    else match Find(orders[1..], id)
      case None => None
      case Some(i) => Some(i + 1)
  }

  function WithStatus(s: State, i: nat, status: Status): State
    requires i < |s.orders|
  {
    s.(orders := s.orders[i := s.orders[i].(status := status)])
  }

  function Submit(configs: Configs, s: State, decisionTime: i64, id: OrderId, request: Request): Outcome<OrderId> {
    var intent := request.intent;
    if request.activateAt < decisionTime then Outcome(s, Err(ActivationBeforeDecision))
    else if intent.instrument !in configs then Outcome(s, Err(InstrumentOutsideUniverse))
    else if intent.quantity.unit != configs[intent.instrument].unit then Outcome(s, Err(SimError.UnitMismatch))
    else if !LimitAccepted(intent.orderType, configs[intent.instrument].policy) then Outcome(s, Err(PriceNotAllowed))
    else
      var replaced := Replace(s, request.clientId);
      if replaced.result.Err? then Outcome(replaced.state, Err(replaced.result.error)) else
      var t := replaced.state;
      if !IsU64(t.nextSequence + 1) then Outcome(t, Err(SequenceOverflow)) else
      Outcome(t.(nextSequence := t.nextSequence + 1, clients := t.clients[request.clientId := id],
                 orders := t.orders + [Order(id, request, t.nextSequence, 0, Scheduled)]), Ok(id))
  }

  /** A client id that is already in use must still be scheduled, and is replaced. */
  function Replace(s: State, clientId: string): Outcome<()> {
    if clientId !in s.clients then Outcome(s, Ok(())) else
    match Find(s.orders, s.clients[clientId])
    case None => Outcome(s, Err(Panicked))
    case Some(i) =>
      if s.orders[i].status != Scheduled then Outcome(s, Err(ClientOrderAlreadyTerminal))
      else Outcome(WithStatus(s, i, Replaced), Ok(()))
  }

  function CancelBeforeActivation(s: State, clientId: string): Outcome<()> {
    if clientId !in s.clients then Outcome(s, Err(UnknownClientOrder)) else
    match Find(s.orders, s.clients[clientId])
    case None => Outcome(s, Err(UnknownOrder))
    case Some(i) =>
      if s.orders[i].status != Scheduled then Outcome(s, Err(OrderAlreadyTerminal))
      else Outcome(WithStatus(s, i, Cancelled), Ok(()))
  }

  predicate Open(status: Status) {
    status == Scheduled || status == Active || status == PartiallyFilled || status == MatchAttempted
  }

  function Expire(s: State, id: OrderId, at: i64): Outcome<()> {
    match Find(s.orders, id)
    case None => Outcome(s, Err(UnknownOrder))
    case Some(i) =>
      if !Open(s.orders[i].status) then Outcome(s, Err(OrderAlreadyTerminal))
      else if s.orders[i].request.expireAt != Some(at) then Outcome(s, Err(ExpiryTimeMismatch))
      else Outcome(WithStatus(s, i, Expired), Ok(()))
  }

  predicate InterruptedMarketOrder(o: Order, instrument: InstrumentId) {
    o.request.intent.instrument == instrument && o.request.intent.orderType.Market?
    && (o.status == Active || o.status == PartiallyFilled || o.status == MatchAttempted)
  }

  function CancelInterrupted(configs: Configs, s: State, instrument: InstrumentId): Outcome<()> {
    if instrument !in configs then Outcome(s, Err(InstrumentOutsideUniverse))
    else Outcome(s.(orders := seq(|s.orders|, i requires 0 <= i < |s.orders| =>
                      if InterruptedMarketOrder(s.orders[i], instrument) then s.orders[i].(status := Cancelled) else s.orders[i])),
                 Ok(()))
  }

  // ------------------------------------------------------------------ filling

  function RuleOf(o: Order, model: DepthModel): Rule {
    Rule(o.request.intent.side, o.request.intent.orderType, model.delta)
  }

  function ConsumedOn(b: BookState, side: OrderSide): Counts {
    if side == Buy then b.consumedAsks else b.consumedBids
  }

  function WithConsumedOn(b: BookState, side: OrderSide, consumed: Counts): BookState {
    if side == Buy then b.(consumedAsks := consumed) else b.(consumedBids := consumed)
  }

  /** The sweep of one order, checked against the price policy before anything is changed. */
  function SweepFor(rules: InstrumentRules, b: BookState, o: Order, requested: Quantity): Result<Sweep, SimError> {
    match SweepDepth(b.book, requested, rules.model.depthLevels, RuleOf(o, rules.model), ConsumedOn(b, o.request.intent.side))
    case Err(e) => Err(SweepFailed(e))
    case Ok(sweep) =>
      if exists i :: 0 <= i < |sweep.fills| && !Accepts(rules.policy, sweep.fills[i].price) then Err(PriceNotAllowed)
      else Ok(sweep)
  }

  /** One level fill: its consumption and its record. `total` is the order's filled quantity with it. */
  function BookOne(s: State, i: nat, fill: LevelFill, total: nat, at: i64): Outcome<()>
    requires i < |s.orders| && s.orders[i].request.intent.instrument in s.books
  {
    var o := s.orders[i];
    var k, side := o.request.intent.instrument, o.request.intent.side;
    var b := s.books[k];
    match Consume(ConsumedOn(b, side), [fill])
    case Err(e) => Outcome(s, Err(SweepFailed(e)))
    case Ok(consumed) =>
      var recorded := Fill(o.id, k, at, side, fill.levelIndex, fill.price, fill.quantity.value, total, FromDepth(b.matchTime, b.visibleAt));
      var t := s.(books := s.books[k := WithConsumedOn(b, side, consumed)], fills := s.fills + [recorded]);
      // The feedback is refused after the fill is recorded.
      if at < o.request.activateAt then Outcome(t, Err(FillFeedback)) else Outcome(t.(reported := s.reported + [recorded]), Ok(()))
  }

  /** Books the fills of a sweep one by one, then the order's filled quantity. */
  function BookFills(s: State, i: nat, levels: seq<LevelFill>, cumulative: nat, at: i64): (r: Outcome<()>)
    requires i < |s.orders| && s.orders[i].request.intent.instrument in s.books
    ensures |r.state.orders| == |s.orders| && r.state.orders == s.orders[i := s.orders[i].(filled := r.state.orders[i].filled)]
    decreases levels
  {
    if levels == [] then Outcome(s.(orders := s.orders[i := s.orders[i].(filled := cumulative)]), Ok(())) else
    var total := cumulative + levels[0].quantity.value;
    var booked := BookOne(s, i, levels[0], total, at);
    if booked.result.Err? then booked else BookFills(booked.state, i, levels[1..], total, at)
  }

  function FailActivation(s: State, i: nat, reason: FailureReason): Outcome<Status>
    requires i < |s.orders|
  {
    if s.orders[i].filled >= s.orders[i].request.intent.quantity.value then Outcome(WithStatus(s, i, Failed(reason)), Err(Panicked))
    else Outcome(WithStatus(s, i, Failed(reason)), Ok(Failed(reason)))
  }

  /** One fill of the whole order at a given price. */
  function FillWhole(s: State, i: nat, at: i64, price: int, origin: Origin): State
    requires i < |s.orders|
  {
    var o := s.orders[i];
    var quantity := o.request.intent.quantity.value;
    var recorded := Fill(o.id, o.request.intent.instrument, at, o.request.intent.side, 1, price, quantity, quantity, origin);
    s.(fills := s.fills + [recorded], reported := s.reported + [recorded],
       orders := s.orders[i := o.(filled := quantity, status := Filled)])
  }

  function StaleMicros(model: DepthModel): Result<int, SimError> {
    if IsU64(model.maxStaleMs * 1000) && IsI64(model.maxStaleMs * 1000) then Ok(model.maxStaleMs * 1000) else Err(StalenessOverflow)
  }

  function Age(b: BookState, at: i64): Result<int, SimError> {
    if IsI64(at - b.matchTime) then Ok(at - b.matchTime) else Err(StalenessOverflow)
  }

  predicate SeesEnabledMatching(s: State, k: InstrumentId, at: i64) {
    k in s.trading && s.trading[k].visibleAt <= at && s.trading[k].matching.Enabled?
  }

  // --------------------------------------------------------------- activation

  predicate EarlierWaits(orders: seq<Order>, i: nat, at: i64)
    requires i < |orders|
  {
    exists j :: 0 <= j < |orders| && orders[j].status == Scheduled && orders[j].request.activateAt == at
                && orders[j].sequence < orders[i].sequence
  }

  function Activate(configs: Configs, s: State, id: OrderId, at: i64): Outcome<Status> {
    match Find(s.orders, id)
    case None => Outcome(s, Err(UnknownOrder))
    case Some(i) =>
      if s.orders[i].status != Scheduled then Outcome(s, Err(OrderAlreadyTerminal))
      else if s.orders[i].request.activateAt != at then Outcome(s, Err(ActivationTimeMismatch))
      else if EarlierWaits(s.orders, i, at) then Outcome(s, Err(ActivationOutOfOrder))
      else ActivateNext(configs, s, i, at)
  }

  /** The order whose turn it is. */
  function ActivateNext(configs: Configs, s: State, i: nat, at: i64): Outcome<Status>
    requires i < |s.orders|
  {
    var o := s.orders[i];
    var k := o.request.intent.instrument;
    if k in s.trading && s.trading[k].visibleAt <= at && !EntryAllows(s.trading[k].entry, o.request.intent.orderType)
    then FailActivation(s, i, NewOrderEntryBlocked)
    else match o.request.policy
      case DepthUntilExpiry => Outcome(WithStatus(s, i, Active), Ok(Active))
      case AuctionCross => Outcome(WithStatus(s, i, Active), Ok(Active))
      case SettlementAtActivation => SettleAtActivation(s, i, at)
      case DepthAtActivation => ExecuteAtActivation(configs, s, i, at)
  }

  function SettleAtActivation(s: State, i: nat, at: i64): Outcome<Status>
    requires i < |s.orders|
  {
    match s.orders[i].request.intent.orderType
    case Market => Outcome(s, Err(InvalidSettlementOrderType))
    case Limit(price) => Outcome(FillWhole(s, i, at, price, FromSettlement), Ok(Filled))
  }

  function ExecuteAtActivation(configs: Configs, s: State, i: nat, at: i64): Outcome<Status>
    requires i < |s.orders|
  {
    var o := s.orders[i];
    var k := o.request.intent.instrument;
    if k !in configs then Outcome(s, Err(Panicked))
    else if k !in s.books || s.books[k].visibleAt > at then FailActivation(s, i, MissingVisibleDepth)
    else
      var rules, b := configs[k], s.books[k];
      var limit, age := StaleMicros(rules.model), Age(b, at);
      if limit.Err? then Outcome(s, Err(limit.error))
      else if age.Err? then Outcome(s, Err(age.error))
      else if age.value < 0 || age.value > limit.value then FailActivation(s, i, StaleVisibleDepth)
      else if !SeesEnabledMatching(s, k, at) then FailActivation(s, i, MatchingDisabled)
      else if !EntryAllows(s.trading[k].entry, o.request.intent.orderType) then FailActivation(s, i, NewOrderEntryBlocked)
      else match SweepFor(rules, b, o, o.request.intent.quantity)
        case Err(e) => Outcome(s, Err(e))
        case Ok(sweep) =>
          FinishActivation(s, i, sweep, at)
  }

  function FinishActivation(s: State, i: nat, sweep: Sweep, at: i64): (r: Outcome<Status>)
    requires i < |s.orders| && s.orders[i].request.intent.instrument in s.books
    ensures |r.state.orders| == |s.orders|
  {
    var o := s.orders[i];
    var booked := BookFills(s, i, sweep.fills, 0, at);
    if booked.result.Err? then Outcome(booked.state, Err(booked.result.error))
    else if sweep.filled == o.request.intent.quantity.value
    then Outcome(WithStatus(booked.state, i, Filled), Ok(Filled))
    else FailActivation(booked.state, i,
                        if sweep.filled == 0 && o.request.intent.orderType.Limit? then PriceNotMarketable else InsufficientVisibleDepth)
  }

  // --------------------------------------------------------- passive execution

  /** `None` when there is no usable book yet: the order stays active. */
  function ExecutePassive(configs: Configs, s: State, i: nat, at: i64): (r: Outcome<Option<Status>>)
    requires i < |s.orders|
    ensures |r.state.orders| == |s.orders| && r.state.orders == s.orders[i := r.state.orders[i]]
  {
    var o := s.orders[i];
    var k := o.request.intent.instrument;
    if k !in configs then Outcome(s, Err(Panicked))
    else if k !in s.books || s.books[k].visibleAt > at then Outcome(s, Ok(None))
    else
      var rules, b := configs[k], s.books[k];
      var limit, age := StaleMicros(rules.model), Age(b, at);
      if limit.Err? then Outcome(s, Err(limit.error))
      else if age.Err? then Outcome(s, Err(age.error))
      else if age.value < 0 || age.value > limit.value || !SeesEnabledMatching(s, k, at) then Outcome(s, Ok(None))
      else if o.filled > o.request.intent.quantity.value then Outcome(s, Err(Panicked))
      else if o.filled == o.request.intent.quantity.value then Outcome(s, Err(InvalidQuantity))
      else
        var requested := Quantity(o.request.intent.quantity.value - o.filled, o.request.intent.quantity.unit);
        match SweepFor(rules, b, o, requested)
        case Err(e) => Outcome(s, Err(e))
        case Ok(sweep) =>
          SettlePassive(s, i, requested, sweep, at)
  }

  function SettlePassive(s: State, i: nat, requested: Quantity, sweep: Sweep, at: i64): (r: Outcome<Option<Status>>)
    requires i < |s.orders| && s.orders[i].request.intent.instrument in s.books
    ensures |r.state.orders| == |s.orders| && r.state.orders == s.orders[i := r.state.orders[i]]
  {
    var booked := BookFills(s, i, sweep.fills, s.orders[i].filled, at);
    if booked.result.Err? then Outcome(booked.state, Err(booked.result.error))
    else
      var status := if sweep.filled == requested.value then Filled
                    else if sweep.filled > 0 then PartiallyFilled else MatchAttempted;
      Outcome(WithStatus(booked.state, i, status), Ok(Some(status)))
  }

  predicate WaitsForDepth(o: Order, instrument: InstrumentId) {
    o.status == Active && o.request.intent.instrument == instrument && o.request.policy == DepthUntilExpiry
  }

  /** The orders from index `i` on, oldest first; an error stops the rest but undoes nothing. */
  function EvaluateFrom(configs: Configs, s: State, instrument: InstrumentId, at: i64, i: nat): Outcome<()>
    decreases |s.orders| - i
  {
    if i >= |s.orders| then Outcome(s, Ok(()))
    else if !WaitsForDepth(s.orders[i], instrument) then EvaluateFrom(configs, s, instrument, at, i + 1)
    else
      var executed := ExecutePassive(configs, s, i, at);
      if executed.result.Err? then Outcome(executed.state, Err(executed.result.error))
      else EvaluateFrom(configs, executed.state, instrument, at, i + 1)
  }

  function EvaluateActive(configs: Configs, s: State, instrument: InstrumentId, at: i64): Outcome<()> {
    EvaluateFrom(configs, s, instrument, at, 0)
  }

  // ------------------------------------------------------------------ auctions

  datatype AuctionEvidence = AuctionEvidence(instrument: InstrumentId, price: i128, matchTime: i64)

  predicate WaitsForAuction(o: Order, e: AuctionEvidence) {
    o.status == Active && o.request.intent.instrument == e.instrument && o.request.policy == AuctionCross
    && o.request.activateAt <= e.matchTime
  }

  /** Strictly better than the limit; a market order never crosses. */
  predicate Crosses(o: Order, price: int) {
    match o.request.intent.orderType
    case Market => false
    case Limit(limit) => if o.request.intent.side == Buy then price < limit else price > limit
  }

  /** A crossing order is filled whole at the clearing price; any other has had its one attempt. */
  function AuctionStep(s: State, e: AuctionEvidence, i: nat): State
    requires i < |s.orders|
  {
    if Crosses(s.orders[i], e.price) then FillWhole(s, i, e.matchTime, e.price, FromAuction(e.price))
    else WithStatus(s, i, MatchAttempted)
  }

  function AuctionFrom(s: State, e: AuctionEvidence, i: nat): State
    decreases |s.orders| - i
  {
    if i >= |s.orders| then s
    else if !WaitsForAuction(s.orders[i], e) then AuctionFrom(s, e, i + 1)
    else AuctionFrom(AuctionStep(s, e, i), e, i + 1)
  }

  function EvaluateAuction(configs: Configs, s: State, e: AuctionEvidence): Outcome<()> {
    if e.instrument !in configs then Outcome(s, Err(InstrumentOutsideUniverse))
    else if !Accepts(configs[e.instrument].policy, e.price) then Outcome(s, Err(PriceNotAllowed))
    else Outcome(AuctionFrom(s, e, 0), Ok(()))
  }
}
