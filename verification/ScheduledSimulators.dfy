/** The simulator object: its fields change in place, and every method is its step of the state machine. */
module ScheduledSimulators {
  import opened Wrappers
  import opened MachineIntegers
  import opened MarketTypes
  import opened Book
  import opened Depth
  import opened Trading
  import opened ScheduledModel
  import opened ScheduledInvariant
  import opened ScheduledSteps
  import opened ScheduledRuns

  /** Exactly the indices below `bound` of the orders that wait, oldest first. */
  ghost predicate Collected(indices: seq<nat>, orders: seq<Order>, bound: nat, waits: Order -> bool) {
    && (forall n :: 0 <= n < |indices| ==> indices[n] < |orders| && indices[n] < bound && waits(orders[indices[n]]))
    && (forall m, n :: 0 <= m < n < |indices| ==> indices[m] < indices[n])
    && (forall i :: 0 <= i < |orders| && i < bound && waits(orders[i]) ==> i in indices)
  }

  /** Between two collected indices nothing waits. */
  lemma {:induction false} GapsDoNotWait(indices: seq<nat>, orders: seq<Order>, waits: Order -> bool, n: nat)
    requires Collected(indices, orders, |orders|, waits) && n <= |indices|
    ensures forall i :: (if n == 0 then 0 else indices[n - 1] + 1) <= i < (if n < |indices| then indices[n] else |orders|) ==>
      !waits(orders[i])
  {
    forall i | (if n == 0 then 0 else indices[n - 1] + 1) <= i < (if n < |indices| then indices[n] else |orders|)
      ensures !waits(orders[i])
    {
      forall m | 0 <= m < |indices| ensures indices[m] != i {
      }
    }
  }

  lemma {:induction false} EvaluateSkips(configs: Configs, s: State, k: InstrumentId, at: i64, from: nat, to: nat)
    requires from <= to && forall i :: from <= i < to && i < |s.orders| ==> !WaitsForDepth(s.orders[i], k)
    ensures EvaluateFrom(configs, s, k, at, from) == EvaluateFrom(configs, s, k, at, to)
    decreases |s.orders| - from
  {
    if from < to && from < |s.orders| {
      EvaluateSkips(configs, s, k, at, from + 1, to);
    }
  }

  lemma {:induction false} AuctionSkips(s: State, e: AuctionEvidence, from: nat, to: nat)
    requires from <= to && forall i :: from <= i < to && i < |s.orders| ==> !WaitsForAuction(s.orders[i], e)
    ensures AuctionFrom(s, e, from) == AuctionFrom(s, e, to)
    decreases |s.orders| - from
  {
    if from < to && from < |s.orders| {
      AuctionSkips(s, e, from + 1, to);
    }
  }

  /** Orders from `from` on that are as they were when the waiting ones were collected. */
  ghost predicate Pending(indices: seq<nat>, start: seq<Order>, s: State, waits: Order -> bool, n: nat, from: nat) {
    && Collected(indices, start, |start|, waits) && n <= |indices| && |s.orders| == |start|
    && from == (if n == 0 then 0 else indices[n - 1] + 1) && forall i :: from <= i < |start| ==> s.orders[i] == start[i]
  }

  lemma {:induction false} PendingNext(indices: seq<nat>, start: seq<Order>, s: State, t: State, waits: Order -> bool, n: nat, from: nat)
    requires Pending(indices, start, s, waits, n, from) && n < |indices|
    requires |t.orders| == |s.orders| && forall j :: 0 <= j < |s.orders| && j != indices[n] ==> t.orders[j] == s.orders[j]
    ensures Pending(indices, start, t, waits, n + 1, indices[n] + 1)
  {
  }

  /** The fold comes from one waiting order to the next, or to the end. */
  lemma {:induction false} AuctionReaches(indices: seq<nat>, start: seq<Order>, s: State, e: AuctionEvidence, n: nat, from: nat)
    requires Pending(indices, start, s, (o: Order) => WaitsForAuction(o, e), n, from)
    ensures if n < |indices| then
        indices[n] < |s.orders| && AuctionFrom(s, e, from) == AuctionFrom(AuctionStep(s, e, indices[n]), e, indices[n] + 1)
      else AuctionFrom(s, e, from) == s
  {
    GapsDoNotWait(indices, start, (o: Order) => WaitsForAuction(o, e), n);
    AuctionSkips(s, e, from, if n < |indices| then indices[n] else |start|);
  }

  lemma {:induction false} EvaluateReaches(indices: seq<nat>, start: seq<Order>, configs: Configs, s: State, k: InstrumentId, at: i64,
                                           n: nat, from: nat)
    requires Pending(indices, start, s, (o: Order) => WaitsForDepth(o, k), n, from)
    ensures if n < |indices| then
        && indices[n] < |s.orders|
        && var x := ExecutePassive(configs, s, indices[n], at);
           EvaluateFrom(configs, s, k, at, from)
           == if x.result.Err? then Outcome(x.state, Err(x.result.error)) else EvaluateFrom(configs, x.state, k, at, indices[n] + 1)
      else EvaluateFrom(configs, s, k, at, from) == Outcome(s, Ok(()))
  {
    GapsDoNotWait(indices, start, (o: Order) => WaitsForDepth(o, k), n);
    EvaluateSkips(configs, s, k, at, from, if n < |indices| then indices[n] else |start|);
  }

  class ScheduledDepthSimulator {
    const configs: Configs
    var books: map<InstrumentId, BookState>
    var trading: map<InstrumentId, TradingState>
    var orders: seq<Order>
    var clients: map<string, OrderId>
    var fills: seq<Fill>
    var reported: seq<Fill>
    var nextSequence: u64
    ghost var published: map<InstrumentId, nat>

    ghost function Now(): State
      reads this
    {
      State(books, trading, orders, clients, fills, reported, nextSequence, published)
    }

    /** What every operation keeps, but an early evaluation or a repeated order id. */
    ghost predicate Valid()
      reads this
    {
      // Compared with `true`, the invariant is not unfolded in every method.
      Inv(configs, Now()) == true
    }

    constructor (configs: Configs)
      ensures this.configs == configs && Now() == Initial && Valid()
    {
      this.configs := configs;
      books, trading, orders, clients, fills, reported, nextSequence, published := map[], map[], [], map[], [], [], 1, map[];
      new;
      InitialHolds(configs);
    }

    // ----------------------------------------------------------- publications

    method PublishVisibleTradingState(instrument: InstrumentId, t: TradingState) returns (r: Result<(), SimError>)
      modifies this
      ensures Outcome(Now(), r) == PublishTrading(configs, old(Now()), instrument, t)
      ensures old(Valid()) ==> Valid()
    {
      if Valid() {
        PublishTradingSound(configs, Now(), instrument, t);
      }
      if instrument !in configs {
        return Err(InstrumentOutsideUniverse);
      }
      if instrument in trading && (t.visibleAt < trading[instrument].visibleAt || t.matchTime < trading[instrument].matchTime) {
        return Err(RegressingTradingStateTime);
      }
      trading := trading[instrument := t];
      return Ok(());
    }

    method PublishVisibleBook(e: BookEvidence) returns (r: Result<(), SimError>)
      modifies this
      ensures Outcome(Now(), r) == PublishBook(configs, old(Now()), e)
      ensures old(Valid()) ==> Valid()
    {
      if Valid() {
        PublishBookSound(configs, Now(), e);
      }
      if e.instrument !in configs {
        return Err(InstrumentOutsideUniverse);
      }
      var rules := configs[e.instrument];
      var unit := BookUnit(e.book);
      if unit.Some? && unit.value != rules.unit {
        return Err(SimError.UnitMismatch);
      }
      if !PricesAccepted(SideLevels(e.book, Sell), rules.policy) || !PricesAccepted(SideLevels(e.book, Buy), rules.policy) {
        return Err(PriceNotAllowed);
      }
      if e.instrument in books
         && (e.trading.visibleAt < books[e.instrument].visibleAt || e.trading.matchTime < books[e.instrument].matchTime) {
        return Err(RegressingBookTime);
      }
      var traded := PublishVisibleTradingState(e.instrument, e.trading);
      if traded.Err? {
        return traded;
      }
      books := books[e.instrument := BookState(e.book, e.trading.matchTime, e.trading.visibleAt, [0, 0, 0, 0, 0], [0, 0, 0, 0, 0])];
      published := published[e.instrument := |fills|];
      return Ok(());
    }

    // ----------------------------------------------- orders before activation

    method OrderIndex(id: OrderId) returns (r: Option<nat>)
      ensures r == Find(orders, id)
    {
      var i := 0;
      while i < |orders|
        invariant i <= |orders| && forall j :: 0 <= j < i ==> orders[j].id != id
      {
        if orders[i].id == id {
          return Some(i);
        }
        i := i + 1;
      }
      return None;
    }

    method SetStatus(i: nat, status: Status)
      requires i < |orders|
      modifies this`orders
      ensures Now() == WithStatus(old(Now()), i, status)
    {
      orders := orders[i := orders[i].(status := status)];
    }

    method ReplaceClientOrder(clientId: string) returns (r: Result<(), SimError>)
      modifies this`orders
      ensures Outcome(Now(), r) == Replace(old(Now()), clientId)
    {
      if clientId !in clients {
        return Ok(());
      }
      var found := OrderIndex(clients[clientId]);
      if found == None {
        return Err(Panicked);
      }
      if orders[found.value].status != Scheduled {
        return Err(ClientOrderAlreadyTerminal);
      }
      SetStatus(found.value, Replaced);
      return Ok(());
    }

    method SubmitOrder(decisionTime: i64, id: OrderId, request: Request) returns (r: Result<OrderId, SimError>)
      modifies this
      ensures Outcome(Now(), r) == Submit(configs, old(Now()), decisionTime, id, request)
      ensures old(Valid() && FreshId(Now(), id)) ==> Valid()
    {
      if Valid() && FreshId(Now(), id) {
        SubmitSound(configs, Now(), decisionTime, id, request);
      }
      var intent := request.intent;
      if request.activateAt < decisionTime {
        return Err(ActivationBeforeDecision);
      }
      if intent.instrument !in configs {
        return Err(InstrumentOutsideUniverse);
      }
      if intent.quantity.unit != configs[intent.instrument].unit {
        return Err(SimError.UnitMismatch);
      }
      if !LimitAccepted(intent.orderType, configs[intent.instrument].policy) {
        return Err(PriceNotAllowed);
      }
      var _ :- ReplaceClientOrder(request.clientId);
      var sequence: int := nextSequence;
      if !IsU64(sequence + 1) {
        return Err(SequenceOverflow);
      }
      nextSequence := sequence + 1;
      clients := clients[request.clientId := id];
      orders := orders + [Order(id, request, sequence, 0, Scheduled)];
      return Ok(id);
    }

    method CancelScheduled(clientId: string) returns (r: Result<(), SimError>)
      modifies this
      ensures Outcome(Now(), r) == CancelBeforeActivation(old(Now()), clientId)
      ensures old(Valid()) ==> Valid()
    {
      if Valid() {
        CancelSound(configs, Now(), clientId);
      }
      if clientId !in clients {
        return Err(UnknownClientOrder);
      }
      var found := OrderIndex(clients[clientId]);
      if found == None {
        return Err(UnknownOrder);
      }
      if orders[found.value].status != Scheduled {
        return Err(OrderAlreadyTerminal);
      }
      SetStatus(found.value, Cancelled);
      return Ok(());
    }

    method ExpireOrder(id: OrderId, at: i64) returns (r: Result<(), SimError>)
      modifies this
      ensures Outcome(Now(), r) == Expire(old(Now()), id, at)
      ensures old(Valid()) ==> Valid()
    {
      if Valid() {
        ExpireSound(configs, Now(), id, at);
      }
      var found := OrderIndex(id);
      if found == None {
        return Err(UnknownOrder);
      }
      var order := orders[found.value];
      if !Open(order.status) {
        return Err(OrderAlreadyTerminal);
      }
      if order.request.expireAt != Some(at) {
        return Err(ExpiryTimeMismatch);
      }
      SetStatus(found.value, Expired);
      return Ok(());
    }

    method CancelInterruptedMarketOrders(instrument: InstrumentId) returns (r: Result<(), SimError>)
      modifies this
      ensures Outcome(Now(), r) == CancelInterrupted(configs, old(Now()), instrument)
      ensures old(Valid()) ==> Valid()
    {
      if Valid() {
        CancelInterruptedSound(configs, Now(), instrument);
      }
      if instrument !in configs {
        return Err(InstrumentOutsideUniverse);
      }
      ghost var before := orders;
      for i := 0 to |orders|
        invariant Now() == old(Now()).(orders := orders) && |orders| == |before|
        invariant forall j :: 0 <= j < i ==>
          orders[j] == if InterruptedMarketOrder(before[j], instrument) then before[j].(status := Cancelled) else before[j]
        invariant forall j :: i <= j < |before| ==> orders[j] == before[j]
      {
        if InterruptedMarketOrder(orders[i], instrument) {
          orders := orders[i := orders[i].(status := Cancelled)];
        }
      }
      return Ok(());
    }

    // ---------------------------------------------------------------- filling

    method RecordFill(i: nat, level: LevelFill, total: nat, at: i64) returns (r: Result<(), SimError>)
      requires i < |orders| && orders[i].request.intent.instrument in books
      modifies this
      ensures Outcome(Now(), r) == BookOne(old(Now()), i, level, total, at)
    {
      var order := orders[i];
      var instrument, side := order.request.intent.instrument, order.request.intent.side;
      var book := books[instrument];
      var consumed := Consume(ConsumedOn(book, side), [level]);
      if consumed.Err? {
        return Err(SweepFailed(consumed.error));
      }
      books := books[instrument := WithConsumedOn(book, side, consumed.value)];
      var recorded := Fill(order.id, instrument, at, side, level.levelIndex, level.price, level.quantity.value, total,
                           FromDepth(book.matchTime, book.visibleAt));
      fills := fills + [recorded];
      if at < order.request.activateAt {
        return Err(FillFeedback);
      }
      reported := reported + [recorded];
      return Ok(());
    }

    method RecordFills(i: nat, levels: seq<LevelFill>, start: nat, at: i64) returns (r: Result<(), SimError>)
      requires i < |orders| && orders[i].request.intent.instrument in books
      modifies this
      ensures Outcome(Now(), r) == BookFills(old(Now()), i, levels, start, at)
    {
      var cumulative: nat := start;
      ghost var whole := BookFills(Now(), i, levels, start, at);
      for n := 0 to |levels|
        invariant i < |orders| && orders[i].request.intent.instrument in books
        invariant whole == BookFills(Now(), i, levels[n..], cumulative, at)
      {
        cumulative := cumulative + levels[n].quantity.value;
        r := RecordFill(i, levels[n], cumulative, at);
        if r.Err? {
          return r;
        }
        assert levels[n..][1..] == levels[n + 1..];
      }
      orders := orders[i := orders[i].(filled := cumulative)];
      return Ok(());
    }

    method FailOrder(i: nat, reason: FailureReason) returns (r: Result<Status, SimError>)
      requires i < |orders|
      modifies this
      ensures Outcome(Now(), r) == FailActivation(old(Now()), i, reason)
    {
      var order := orders[i];
      SetStatus(i, Failed(reason));
      if order.filled >= order.request.intent.quantity.value {
        return Err(Panicked);
      }
      return Ok(Failed(reason));
    }

    // ------------------------------------------------------------- activation

    /** Whether an order accepted earlier still waits for the same time. */
    method HasEarlierWaiting(i: nat, at: i64) returns (r: bool)
      requires i < |orders|
      ensures r == EarlierWaits(orders, i, at)
    {
      for j := 0 to |orders|
        invariant forall n :: 0 <= n < j ==>
          !(orders[n].status == Scheduled && orders[n].request.activateAt == at && orders[n].sequence < orders[i].sequence)
      {
        if orders[j].status == Scheduled && orders[j].request.activateAt == at && orders[j].sequence < orders[i].sequence {
          return true;
        }
      }
      return false;
    }

    method ActivateOrder(id: OrderId, at: i64) returns (r: Result<Status, SimError>)
      modifies this
      ensures Outcome(Now(), r) == Activate(configs, old(Now()), id, at)
      ensures old(Valid()) ==> Valid()
    {
      if Valid() {
        ActivateSound(configs, Now(), id, at);
      }
      var found := OrderIndex(id);
      if found == None {
        return Err(UnknownOrder);
      }
      var i := found.value;
      if orders[i].status != Scheduled {
        return Err(OrderAlreadyTerminal);
      }
      if orders[i].request.activateAt != at {
        return Err(ActivationTimeMismatch);
      }
      var waiting := HasEarlierWaiting(i, at);
      if waiting {
        return Err(ActivationOutOfOrder);
      }
      r := StartOrder(i, at);
    }

    method StartOrder(i: nat, at: i64) returns (r: Result<Status, SimError>)
      requires i < |orders|
      modifies this
      ensures Outcome(Now(), r) == ActivateNext(configs, old(Now()), i, at)
    {
      var request := orders[i].request;
      var instrument := request.intent.instrument;
      if instrument in trading && trading[instrument].visibleAt <= at
         && !EntryAllows(trading[instrument].entry, request.intent.orderType) {
        r := FailOrder(i, NewOrderEntryBlocked);
        return r;
      }
      match request.policy
      case DepthUntilExpiry =>
        SetStatus(i, Active);
        return Ok(Active);
      case AuctionCross =>
        SetStatus(i, Active);
        return Ok(Active);
      case SettlementAtActivation =>
        r := SettleOrder(i, at);
      case DepthAtActivation =>
        r := SweepOrder(i, at);
    }

    method FillOrder(i: nat, at: i64, price: int, origin: Origin)
      requires i < |orders|
      modifies this
      ensures Now() == FillWhole(old(Now()), i, at, price, origin)
    {
      var order := orders[i];
      var intent := order.request.intent;
      var recorded := Fill(order.id, intent.instrument, at, intent.side, 1, price, intent.quantity.value, intent.quantity.value, origin);
      fills, reported := fills + [recorded], reported + [recorded];
      orders := orders[i := order.(filled := intent.quantity.value, status := Filled)];
    }

    method SettleOrder(i: nat, at: i64) returns (r: Result<Status, SimError>)
      requires i < |orders|
      modifies this
      ensures Outcome(Now(), r) == SettleAtActivation(old(Now()), i, at)
    {
      match orders[i].request.intent.orderType
      case Market =>
        return Err(InvalidSettlementOrderType);
      case Limit(price) =>
        FillOrder(i, at, price, FromSettlement);
        return Ok(Filled);
    }

    method SweepOrder(i: nat, at: i64) returns (r: Result<Status, SimError>)
      requires i < |orders|
      modifies this
      ensures Outcome(Now(), r) == ExecuteAtActivation(configs, old(Now()), i, at)
    {
      var order := orders[i];
      var instrument := order.request.intent.instrument;
      if instrument !in configs {
        return Err(Panicked);
      }
      if instrument !in books || books[instrument].visibleAt > at {
        r := FailOrder(i, MissingVisibleDepth);
        return r;
      }
      var rules, book := configs[instrument], books[instrument];
      var limit :- StaleMicros(rules.model);
      var age :- Age(book, at);
      if age < 0 || age > limit {
        r := FailOrder(i, StaleVisibleDepth);
        return r;
      }
      if !(instrument in trading && trading[instrument].visibleAt <= at && trading[instrument].matching.Enabled?) {
        r := FailOrder(i, MatchingDisabled);
        return r;
      }
      if !EntryAllows(trading[instrument].entry, order.request.intent.orderType) {
        r := FailOrder(i, NewOrderEntryBlocked);
        return r;
      }
      var swept :- CheckedSweep(rules, book, order, order.request.intent.quantity);
      r := FinishSweep(i, swept, at);
    }

    method CheckedSweep(rules: InstrumentRules, book: BookState, order: Order, requested: Quantity) returns (r: Result<Sweep, SimError>)
      ensures r == SweepFor(rules, book, order, requested)
    {
      var swept := SweepMarketableDepth(book.book, requested, rules.model.depthLevels, RuleOf(order, rules.model),
                                        ConsumedOn(book, order.request.intent.side));
      if swept.Err? {
        return Err(SweepFailed(swept.error));
      }
      var levels := swept.value.fills;
      for n := 0 to |levels|
        invariant forall j :: 0 <= j < n ==> Accepts(rules.policy, levels[j].price)
      {
        if !Accepts(rules.policy, levels[n].price) {
          return Err(PriceNotAllowed);
        }
      }
      return Ok(swept.value);
    }

    method FinishSweep(i: nat, sweep: Sweep, at: i64) returns (r: Result<Status, SimError>)
      requires i < |orders| && orders[i].request.intent.instrument in books
      modifies this
      ensures Outcome(Now(), r) == FinishActivation(old(Now()), i, sweep, at)
    {
      var intent := orders[i].request.intent;
      var _ :- RecordFills(i, sweep.fills, 0, at);
      if sweep.filled == intent.quantity.value {
        SetStatus(i, Filled);
        return Ok(Filled);
      }
      r := FailOrder(i, if sweep.filled == 0 && intent.orderType.Limit? then PriceNotMarketable else InsufficientVisibleDepth);
    }

    // ------------------------------------------------------ passive execution

    method ExecutePassiveOrder(i: nat, at: i64) returns (r: Result<Option<Status>, SimError>)
      requires i < |orders|
      modifies this
      ensures Outcome(Now(), r) == ExecutePassive(configs, old(Now()), i, at)
    {
      var order := orders[i];
      var instrument := order.request.intent.instrument;
      if instrument !in configs {
        return Err(Panicked);
      }
      if instrument !in books || books[instrument].visibleAt > at {
        return Ok(None);
      }
      var rules, book := configs[instrument], books[instrument];
      var limit :- StaleMicros(rules.model);
      var age :- Age(book, at);
      if age < 0 || age > limit
         || !(instrument in trading && trading[instrument].visibleAt <= at && trading[instrument].matching.Enabled?) {
        return Ok(None);
      }
      var quantity := order.request.intent.quantity;
      if order.filled > quantity.value {
        return Err(Panicked);
      }
      if order.filled == quantity.value {
        return Err(InvalidQuantity);
      }
      var requested := Quantity(quantity.value - order.filled, quantity.unit);
      var swept :- CheckedSweep(rules, book, order, requested);
      r := FinishPassive(i, requested, swept, at);
    }

    method FinishPassive(i: nat, requested: Quantity, sweep: Sweep, at: i64) returns (r: Result<Option<Status>, SimError>)
      requires i < |orders| && orders[i].request.intent.instrument in books
      modifies this
      ensures Outcome(Now(), r) == SettlePassive(old(Now()), i, requested, sweep, at)
    {
      var _ :- RecordFills(i, sweep.fills, orders[i].filled, at);
      var status := if sweep.filled == requested.value then Filled
                    else if sweep.filled > 0 then PartiallyFilled else MatchAttempted;
      SetStatus(i, status);
      return Ok(Some(status));
    }

    /** The orders that wait, collected before any of them is executed. */
    method Collect(waits: Order -> bool) returns (indices: seq<nat>)
      ensures Collected(indices, orders, |orders|, waits)
    {
      indices := [];
      for i := 0 to |orders|
        invariant Collected(indices, orders, i, waits)
      {
        if waits(orders[i]) {
          indices := indices + [i];
        }
      }
    }

    method EvaluateActiveOrders(instrument: InstrumentId, at: i64) returns (r: Result<(), SimError>)
      modifies this
      ensures Outcome(Now(), r) == EvaluateActive(configs, old(Now()), instrument, at)
      ensures old(Valid() && !EvaluatesEarly(configs, Now(), instrument, at, 0)) ==> Valid()
    {
      if Valid() && !EvaluatesEarly(configs, Now(), instrument, at, 0) {
        EvaluateFromSound(configs, Now(), instrument, at, 0);
      }
      r := ExecuteWaiting(instrument, at);
    }

    method ExecuteWaiting(instrument: InstrumentId, at: i64) returns (r: Result<(), SimError>)
      modifies this
      ensures Outcome(Now(), r) == EvaluateActive(configs, old(Now()), instrument, at)
    {
      var waits := (o: Order) => WaitsForDepth(o, instrument);
      var indices := Collect(waits);
      ghost var start, done, whole := orders, 0, EvaluateActive(configs, Now(), instrument, at);
      for n := 0 to |indices|
        // Compared with `true`, the predicate is not unfolded in every iteration.
        invariant Pending(indices, start, Now(), waits, n, done) == true
        invariant whole == EvaluateFrom(configs, Now(), instrument, at, done)
      {
        ghost var before := Now();
        EvaluateReaches(indices, start, configs, before, instrument, at, n, done);
        var _ :- ExecutePassiveOrder(indices[n], at);
        PendingNext(indices, start, before, Now(), waits, n, done);
        done := indices[n] + 1;
      }
      EvaluateReaches(indices, start, configs, Now(), instrument, at, |indices|, done);
      return Ok(());
    }

    method AttemptAuction(i: nat, e: AuctionEvidence)
      requires i < |orders|
      modifies this
      ensures Now() == AuctionStep(old(Now()), e, i)
      ensures |orders| == old(|orders|) && forall j :: 0 <= j < |orders| && j != i ==> orders[j] == old(orders[j])
    {
      if Crosses(orders[i], e.price) {
        FillOrder(i, e.matchTime, e.price, FromAuction(e.price));
      } else {
        SetStatus(i, MatchAttempted);
      }
    }

    method EvaluateAuctionMatch(e: AuctionEvidence) returns (r: Result<(), SimError>)
      modifies this
      ensures Outcome(Now(), r) == EvaluateAuction(configs, old(Now()), e)
      ensures old(Valid()) ==> Valid()
    {
      if Valid() {
        EvaluateAuctionSound(configs, Now(), e);
      }
      if e.instrument !in configs {
        return Err(InstrumentOutsideUniverse);
      }
      if !Accepts(configs[e.instrument].policy, e.price) {
        return Err(PriceNotAllowed);
      }
      SettleWaiting(e);
      return Ok(());
    }

    method SettleWaiting(e: AuctionEvidence)
      modifies this
      ensures Now() == AuctionFrom(old(Now()), e, 0)
    {
      var waits := (o: Order) => WaitsForAuction(o, e);
      var indices := Collect(waits);
      ghost var start, done, whole := orders, 0, AuctionFrom(Now(), e, 0);
      for n := 0 to |indices|
        // Compared with `true`, the predicate is not unfolded in every iteration.
        invariant Pending(indices, start, Now(), waits, n, done) == true
        invariant whole == AuctionFrom(Now(), e, done)
      {
        ghost var before := Now();
        AuctionReaches(indices, start, before, e, n, done);
        AttemptAuction(indices[n], e);
        PendingNext(indices, start, before, Now(), waits, n, done);
        done := indices[n] + 1;
      }
      AuctionReaches(indices, start, Now(), e, |indices|, done);
    }
  }
}
