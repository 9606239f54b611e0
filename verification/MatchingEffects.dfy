/**
 What each operation of the event-driven simulator does, read off the payload and the state before it: who is filled, how
 much, at which price, and where an evaluation stops.
 */
module MatchingEffects {
  import opened Wrappers
  import opened MachineIntegers
  import opened MarketTypes
  import opened Book
  import opened Depth
  import opened Trading
  import opened MatchingModel
  import MatchingProperties

  // -------------------------------------------------------------------- evidence

  function TopOf(side: BookSide): Option<Shown> {
    match side.slots[0]
    case None => None
    case Some(level) => Some(Shown(level.price, level.displayed))
  }

  /** A buy is shown the best ask and a sell the best bid, or both the first trade. */
  function ShownBy(mode: EvidenceMode, payload: Payload, side: OrderSide): Option<Shown> {
    match (mode, payload)
    case (TopOfBook, QuoteSnapshot(book, _)) => TopOf(if side == Buy then book.asks else book.bids)
    case (TopOfBook, BookSnapshot(book)) => TopOf(if side == Buy then book.asks else book.bids)
    case (TradePrint, QuoteSnapshot(_, Some(trade))) => Some(Shown(trade.price, trade.quantity))
    case (TradePrint, TradeBatch(trades)) => if trades == [] then None else Some(Shown(trades[0].price, trades[0].quantity))
    case _ => None
  }

  predicate Allowed(policy: PricePolicy, price: int) {
    policy == Signed || price > 0
  }

  function ShownTo(setup: Setup, tick: Tick, side: OrderSide): Option<Shown> {
    match ShownBy(setup.model.evidence, tick.event.payload, side)
    case None => None
    case Some(shown) => if Allowed(setup.policy, shown.price) then Some(shown) else None
  }

  lemma {:induction false} OfferedExactly(setup: Setup, tick: Tick, side: OrderSide)
    ensures Offered(setup, tick.event, side) == ShownTo(setup, tick, side)
  {
    match tick.event.payload
    case QuoteSnapshot(book, _) =>
      TopIsFirst(book.asks);
      TopIsFirst(book.bids);
    case BookSnapshot(book) =>
      TopIsFirst(book.asks);
      TopIsFirst(book.bids);
    case _ =>
  }

  lemma {:induction false} TopIsFirst(side: BookSide)
    ensures TopOf(side) == if Levels(side.slots) == [] then None
                           else Some(Shown(Levels(side.slots)[0].price, Levels(side.slots)[0].displayed))
  {
  }

  // -------------------------------------------------------------- orders in turn

  /** The price after the adverse delta. */
  function PriceFor(side: OrderSide, price: int, delta: int): int {
    if side == Buy then price + delta else price - delta
  }

  predicate WithinLimit(intent: Intent, price: int) {
    match intent.orderType
    case Market => true
    case Limit(limit) => if intent.side == Buy then price <= limit else limit <= price
  }

  /** A working order of the instrument, past both its ordinal and its latency, that is shown a price of its unit within
      its limit. */
  predicate Reached(setup: Setup, o: Order, tick: Tick) {
    && (o.status == Pending || o.status == PartiallyFilled)
    && o.originOrdinal < tick.ordinal && o.eligibleAt <= tick.event.matchTime && o.intent.instrument == tick.event.instrument
    && var shown := ShownTo(setup, tick, o.intent.side);
       shown.Some? && shown.value.quantity.unit == o.intent.quantity.unit && WithinLimit(o.intent, shown.value.price)
  }

  predicate Slips(setup: Setup, price: int, side: OrderSide) {
    var slipped := PriceFor(side, price, setup.model.delta);
    setup.model.delta >= 0 && IsI128(slipped) && Allowed(setup.policy, slipped)
  }

  /** An order whose price slips out of range or policy: the evaluation fails there. */
  predicate StopsAt(setup: Setup, o: Order, tick: Tick) {
    Reached(setup, o, tick) && !Slips(setup, ShownTo(setup, tick, o.intent.side).value.price, o.intent.side)
  }

  /** An order that trades: its slipped price is within its limit too. */
  predicate TradesAt(setup: Setup, o: Order, tick: Tick) {
    && Reached(setup, o, tick) && !StopsAt(setup, o, tick)
    && WithinLimit(o.intent, PriceFor(o.intent.side, ShownTo(setup, tick, o.intent.side).value.price, setup.model.delta))
  }

  function Wanted(o: Order): nat {
    if o.filled < o.intent.quantity.value then o.intent.quantity.value - o.filled else 0
  }

  /** What the orders before index `i` take from one side, each as much as it wants of what is left. */
  function TakenBefore(setup: Setup, orders: seq<Order>, tick: Tick, i: nat, side: OrderSide): nat
    requires i <= |orders|
  {
    if i == 0 then 0
    else TakenBefore(setup, orders, tick, i - 1, side)
         + (if orders[i - 1].intent.side == side then Share(setup, orders, tick, i - 1) else 0)
  }

  /** What order `i` is filled. */
  function Share(setup: Setup, orders: seq<Order>, tick: Tick, i: nat): nat
    requires i < |orders|
  {
    var o := orders[i];
    if !TradesAt(setup, o, tick) then 0
    else if setup.model.quantity == Unlimited then Wanted(o)
    else Min(Wanted(o), Max(0, ShownTo(setup, tick, o.intent.side).value.quantity.value - TakenBefore(setup, orders, tick, i, o.intent.side)))
  }

  function AfterTurn(setup: Setup, orders: seq<Order>, tick: Tick, i: nat): Order
    requires i < |orders|
  {
    var o, share := orders[i], Share(setup, orders, tick, i);
    if share == 0 then o
    else o.(filled := o.filled + share, status := if o.filled + share >= o.intent.quantity.value then Filled else PartiallyFilled)
  }

  /** The fills of the orders before index `i`, in their order. */
  function FillsOf(setup: Setup, orders: seq<Order>, tick: Tick, i: nat): seq<FillRecord>
    requires i <= |orders|
  {
    if i == 0 then [] else
    FillsOf(setup, orders, tick, i - 1)
    + (if Share(setup, orders, tick, i - 1) > 0 then [FillAt(setup, orders, tick, i - 1)] else [])
  }

  function FillAt(setup: Setup, orders: seq<Order>, tick: Tick, i: nat): FillRecord
    requires i < |orders| && Share(setup, orders, tick, i) > 0
  {
    var o, share := orders[i], Share(setup, orders, tick, i);
    ShareFits(setup, orders, tick, i);
    FillRecord(o.id, MarketEvent(tick.ordinal), tick.event.matchTime, o.intent.side,
               PriceFor(o.intent.side, ShownTo(setup, tick, o.intent.side).value.price, setup.model.delta),
               Quantity(share, o.intent.quantity.unit))
  }

  lemma {:induction false} ShareFits(setup: Setup, orders: seq<Order>, tick: Tick, i: nat)
    requires i < |orders|
    ensures IsU64(Share(setup, orders, tick, i))
    ensures Share(setup, orders, tick, i) > 0 ==>
      TradesAt(setup, orders[i], tick)
      && IsI128(PriceFor(orders[i].intent.side, ShownTo(setup, tick, orders[i].intent.side).value.price, setup.model.delta))
  {
  }

  /** The first order from index `i` on at which the evaluation fails, or the end. */
  function StopFrom(setup: Setup, orders: seq<Order>, tick: Tick, i: nat): (n: nat)
    requires i <= |orders|
    ensures i <= n <= |orders| && (n < |orders| ==> StopsAt(setup, orders[n], tick))
    ensures forall j :: i <= j < n ==> !StopsAt(setup, orders[j], tick)
    decreases |orders| - i
  {
    if i == |orders| || StopsAt(setup, orders[i], tick) then i else StopFrom(setup, orders, tick, i + 1)
  }

  /** The state after the orders before `n` had their turn. */
  function Turned(setup: Setup, s: State, tick: Tick, n: nat): State
    requires n <= |s.orders|
  {
    s.(orders := seq(|s.orders|, i requires 0 <= i < |s.orders| => if i < n then AfterTurn(setup, s.orders, tick, i) else s.orders[i]),
       fills := s.fills + FillsOf(setup, s.orders, tick, n))
  }

  // ---------------------------------------------------------- the fold is those turns

  /** What is left for a side before order `i`. */
  ghost predicate LeftIs(setup: Setup, orders: seq<Order>, tick: Tick, i: nat, a: Available, side: OrderSide)
    requires i <= |orders|
  {
    var shown, taken := ShownTo(setup, tick, side), TakenBefore(setup, orders, tick, i, side);
    match shown
    case None => For(a, side) == None
    case Some(x) =>
      if setup.model.quantity == Unlimited then For(a, side) == shown
      else if taken >= x.quantity.value then For(a, side) == None
      else For(a, side) == Some(Shown(x.price, Quantity(x.quantity.value - taken, x.quantity.unit)))
  }

  /** One order's turn. */
  lemma {:induction false} OneTurn(setup: Setup, orders: seq<Order>, tick: Tick, i: nat, a: Available)
    requires i < |orders| && LeftIs(setup, orders, tick, i, a, orders[i].intent.side)
    ensures var o, share := orders[i], Share(setup, orders, tick, i);
      var side := o.intent.side;
      Execute(setup, o, tick, For(a, side)) ==
        if StopsAt(setup, o, tick) && For(a, side).Some? then Err(InvalidSlippage)
        else if share == 0 then Ok(None)
        else Ok(Some(Execution(PriceFor(side, ShownTo(setup, tick, side).value.price, setup.model.delta), share)))
  {
  }

  lemma {:induction false} StopIsUntaken(setup: Setup, orders: seq<Order>, tick: Tick, o: Order, i: nat)
    requires i <= |orders| && StopsAt(setup, o, tick)
    ensures TakenBefore(setup, orders, tick, i, o.intent.side) == 0
  {
    if i > 0 {
      StopIsUntaken(setup, orders, tick, o, i - 1);
    }
  }

  lemma {:induction false} TurnOfNone(setup: Setup, s: State, tick: Tick, i: nat)
    requires i < |s.orders| && Share(setup, s.orders, tick, i) == 0
    ensures Turned(setup, s, tick, i + 1) == Turned(setup, s, tick, i)
  {
    assert FillsOf(setup, s.orders, tick, i + 1) == FillsOf(setup, s.orders, tick, i) + [] == FillsOf(setup, s.orders, tick, i);
    assert Turned(setup, s, tick, i + 1).orders == Turned(setup, s, tick, i).orders;
  }

  lemma {:induction false} TurnOfSome(setup: Setup, s: State, tick: Tick, i: nat, x: Execution)
    requires i < |s.orders| && Share(setup, s.orders, tick, i) == x.quantity > 0 && IsU64(x.quantity)
    requires x.price == PriceFor(s.orders[i].intent.side, ShownTo(setup, tick, s.orders[i].intent.side).value.price, setup.model.delta)
    ensures Filling(Turned(setup, s, tick, i), i, tick, x) == Turned(setup, s, tick, i + 1)
  {
    var t, u := Filling(Turned(setup, s, tick, i), i, tick, x), Turned(setup, s, tick, i + 1);
    FilledAs(s.orders[i], x.quantity, AfterTurn(setup, s.orders, tick, i));
    assert t.orders == u.orders;
    assert t.fills == s.fills + FillsOf(setup, s.orders, tick, i) + [FillAt(setup, s.orders, tick, i)];
    assert FillsOf(setup, s.orders, tick, i + 1) == FillsOf(setup, s.orders, tick, i) + [FillAt(setup, s.orders, tick, i)];
  }

  lemma {:induction false} FilledAs(o: Order, share: nat, after: Order)
    requires share > 0
    requires after == o.(filled := o.filled + share, status := if o.filled + share >= o.intent.quantity.value then Filled else PartiallyFilled)
    ensures var filled := o.(filled := o.filled + share);
      after == filled.(status := if Remaining(filled) == 0 then Filled else PartiallyFilled)
  {
  }

  lemma {:induction false} LeftNext(setup: Setup, orders: seq<Order>, tick: Tick, i: nat, a: Available, b: Available, side: OrderSide)
    requires i < |orders| && LeftIs(setup, orders, tick, i, a, side)
    requires var own, share := orders[i].intent.side, Share(setup, orders, tick, i);
      if share == 0 then b == a
      else For(a, own).Some? && b == LeftOver(setup, a, own, Execution(PriceFor(own, ShownTo(setup, tick, own).value.price, setup.model.delta), share))
    ensures LeftIs(setup, orders, tick, i + 1, b, side)
  {
  }

  /** Matching from order `i` on gives every order its turn, up to the first whose price slips away. */
  lemma {:induction false} MatchTurns(setup: Setup, s: State, tick: Tick, a: Available, i: nat)
    requires i <= |s.orders| && LeftIs(setup, s.orders, tick, i, a, Buy) && LeftIs(setup, s.orders, tick, i, a, Sell)
    ensures var n := StopFrom(setup, s.orders, tick, i);
      MatchFrom(setup, Turned(setup, s, tick, i), tick, a, i)
      == Outcome(Turned(setup, s, tick, n), if n == |s.orders| then Ok(()) else Err(InvalidSlippage))
    decreases |s.orders| - i
  {
    if i < |s.orders| {
      var o, side, share := s.orders[i], s.orders[i].intent.side, Share(setup, s.orders, tick, i);
      OneTurn(setup, s.orders, tick, i, a);
      assert Turned(setup, s, tick, i).orders[i] == o;
      if StopsAt(setup, o, tick) {
        StopIsUntaken(setup, s.orders, tick, o, i);
      } else if share == 0 {
        TurnOfNone(setup, s, tick, i);
        LeftNext(setup, s.orders, tick, i, a, a, Buy);
        LeftNext(setup, s.orders, tick, i, a, a, Sell);
        MatchTurns(setup, s, tick, a, i + 1);
      } else {
        ShareFits(setup, s.orders, tick, i);
        var x := Execution(PriceFor(side, ShownTo(setup, tick, side).value.price, setup.model.delta), share);
        TurnOfSome(setup, s, tick, i, x);
        var b := LeftOver(setup, a, side, x);
        LeftNext(setup, s.orders, tick, i, a, b, Buy);
        LeftNext(setup, s.orders, tick, i, a, b, Sell);
        MatchTurns(setup, s, tick, b, i + 1);
      }
    }
  }

  // -------------------------------------------------------------------- evaluation

  /** A market order of the instrument that works is cancelled; everything else stays. */
  function Interrupting(s: State, instrument: InstrumentId): State {
    s.(orders := seq(|s.orders|, i requires 0 <= i < |s.orders| =>
                   if s.orders[i].intent.instrument == instrument && s.orders[i].intent.orderType.Market?
                      && (s.orders[i].status == Pending || s.orders[i].status == PartiallyFilled)
                   then s.orders[i].(status := Cancelled) else s.orders[i]))
  }

  lemma {:induction false} CancelsWhere(s: State, which: Order -> bool)
    ensures var t := CancelWhere(s, which);
      && t == s.(orders := t.orders) && |t.orders| == |s.orders|
      && forall i :: 0 <= i < |s.orders| ==>
           t.orders[i] == if which(s.orders[i]) && (s.orders[i].status == Pending || s.orders[i].status == PartiallyFilled)
                          then s.orders[i].(status := Cancelled) else s.orders[i]
  {
  }

  lemma {:induction false} InterruptsExactly(s: State, instrument: InstrumentId)
    ensures CancelWhere(s, (o: Order) => Interrupted(o, instrument)) == Interrupting(s, instrument)
  {
    var which := (o: Order) => Interrupted(o, instrument);
    CancelsWhere(s, which);
    var t, u := CancelWhere(s, which), Interrupting(s, instrument);
    forall i | 0 <= i < |s.orders| ensures t.orders[i] == u.orders[i] {
      assert which(s.orders[i]) == Interrupted(s.orders[i], instrument);
    }
    assert t.orders == u.orders;
  }

  /** What an evaluation does, in full: an interruption cancels, a phase without matching or entry does nothing, and
      otherwise every order has its turn up to the first whose price slips away. */
  lemma {:induction false} EvaluateExactly(setup: Setup, s: State, tick: Tick)
    ensures Evaluate(setup, s, tick)
      == if tick.volatilityInterruption then Outcome(Interrupting(s, tick.event.instrument), Ok(()))
         else if tick.matching == MatchingClosed || tick.matching == MatchingUnknown || tick.entry == EntryBlocked || tick.entry == EntryUnknown
         then Outcome(s, Ok(()))
         else var n := StopFrom(setup, s.orders, tick, 0);
              Outcome(Turned(setup, s, tick, n), if n == |s.orders| then Ok(()) else Err(InvalidSlippage))
  {
    if tick.volatilityInterruption {
      InterruptsExactly(s, tick.event.instrument);
    } else {
      var a := Available(Offered(setup, tick.event, Buy), Offered(setup, tick.event, Sell));
      OfferedExactly(setup, tick, Buy);
      OfferedExactly(setup, tick, Sell);
      assert Turned(setup, s, tick, 0).orders == s.orders && Turned(setup, s, tick, 0).fills == s.fills;
      MatchTurns(setup, s, tick, a, 0);
    }
  }

  /** What one side is filled by an evaluation is at most what the event shows it, under the displayed policy; and any order
      that trades and is not filled completely has found it exhausted. */
  lemma {:induction false} TakenWithinShown(setup: Setup, orders: seq<Order>, tick: Tick, n: nat, side: OrderSide)
    requires n <= |orders| && setup.model.quantity == Displayed
    ensures match ShownTo(setup, tick, side)
      case None => TakenBefore(setup, orders, tick, n, side) == 0
      case Some(shown) => TakenBefore(setup, orders, tick, n, side) <= shown.quantity.value
    ensures forall i :: 0 <= i < n && orders[i].intent.side == side && TradesAt(setup, orders[i], tick)
                        && Share(setup, orders, tick, i) < Wanted(orders[i]) ==>
      TakenBefore(setup, orders, tick, n, side) == ShownTo(setup, tick, side).value.quantity.value
  {
    if n > 0 {
      TakenWithinShown(setup, orders, tick, n - 1, side);
    }
  }

  // ------------------------------------------------------ the fills of an evaluation

  lemma {:induction false} FillOfSome(setup: Setup, orders: seq<Order>, tick: Tick, n: nat, j: nat) returns (i: nat)
    requires n <= |orders| && j < |FillsOf(setup, orders, tick, n)|
    ensures i < n && Share(setup, orders, tick, i) > 0 && FillsOf(setup, orders, tick, n)[j] == FillAt(setup, orders, tick, i)
  {
    if j < |FillsOf(setup, orders, tick, n - 1)| {
      i := FillOfSome(setup, orders, tick, n - 1, j);
    } else {
      i := n - 1;
    }
  }

  /** The displayed evidence of a payload: the best level of the other side of the book, or the first trade. */
  predicate Displays(mode: EvidenceMode, payload: Payload, side: OrderSide, price: i128, quantity: Quantity) {
    match payload
    case QuoteSnapshot(book, trade) =>
      if mode == TopOfBook then (if side == Buy then book.asks.slots[0] else book.bids.slots[0]) == Some(BookLevel(price, quantity))
      else trade == Some(Trade(price, quantity))
    case BookSnapshot(book) =>
      mode == TopOfBook && (if side == Buy then book.asks.slots[0] else book.bids.slots[0]) == Some(BookLevel(price, quantity))
    case TradeBatch(trades) => mode == TradePrint && trades != [] && trades[0] == Trade(price, quantity)
    case OtherPayload => false
  }

  /** Every fill that an evaluation adds is of one of its orders, of this instrument and time, at the displayed price plus
      the adverse delta for a buy and minus it for a sell. */
  lemma {:induction false} AddedFills(setup: Setup, s: State, tick: Tick, j: nat)
    requires |s.fills| <= j < |Evaluate(setup, s, tick).state.fills|
    ensures var f := Evaluate(setup, s, tick).state.fills[j];
      && f.matchTime == tick.event.matchTime && f.trigger == MarketEvent(tick.ordinal)
      && (exists i :: 0 <= i < |s.orders| && FillsFor(s.orders[i], tick, f))
      && (exists price: i128, quantity: Quantity :: DisplaysAt(setup, tick, f, price, quantity))
  {
    EvaluateExactly(setup, s, tick);
    var n := StopFrom(setup, s.orders, tick, 0);
    var i := FillOfSome(setup, s.orders, tick, n, j - |s.fills|);
    var f := Evaluate(setup, s, tick).state.fills[j];
    assert f == FillAt(setup, s.orders, tick, i);
    ShareFits(setup, s.orders, tick, i);
    assert FillsFor(s.orders[i], tick, f);
    var shown := ShownTo(setup, tick, f.side).value;
    assert DisplaysAt(setup, tick, f, shown.price, shown.quantity);
  }

  predicate FillsFor(o: Order, tick: Tick, f: FillRecord) {
    && f.orderId == o.id && f.side == o.intent.side && o.intent.instrument == tick.event.instrument
    && f.quantity.unit == o.intent.quantity.unit && f.quantity.value <= o.intent.quantity.value
    && o.originOrdinal < tick.ordinal && o.eligibleAt <= tick.event.matchTime
  }

  predicate DisplaysAt(setup: Setup, tick: Tick, f: FillRecord, price: i128, quantity: Quantity) {
    && Displays(setup.model.evidence, tick.event.payload, f.side, price, quantity) && f.quantity.unit == quantity.unit
    && f.price == (if f.side == Buy then price + setup.model.delta else price - setup.model.delta)
    && (setup.model.quantity == Displayed ==> f.quantity.value <= quantity.value)
  }

  lemma {:induction false} SideFilledIsTaken(setup: Setup, s: State, tick: Tick, n: nat, side: OrderSide)
    requires n <= |s.orders|
    ensures MatchingProperties.SideFilled(s.fills + FillsOf(setup, s.orders, tick, n), |s.fills|, side)
         == TakenBefore(setup, s.orders, tick, n, side)
  {
    if n > 0 {
      SideFilledIsTaken(setup, s, tick, n - 1, side);
      var before := s.fills + FillsOf(setup, s.orders, tick, n - 1);
      if Share(setup, s.orders, tick, n - 1) > 0 {
        var f := FillAt(setup, s.orders, tick, n - 1);
        assert s.fills + FillsOf(setup, s.orders, tick, n) == before + [f];
        assert (before + [f])[..|before|] == before;
      } else {
        assert s.fills + FillsOf(setup, s.orders, tick, n) == before;
      }
    } else {
      assert s.fills + [] == s.fills;
    }
  }

  /** Under the displayed policy an evaluation fills of one side at most what the payload displays to it. */
  lemma {:induction false} FilledWithinDisplayed(setup: Setup, s: State, tick: Tick, side: OrderSide)
    requires setup.model.quantity == Displayed
    ensures var filled := MatchingProperties.SideFilled(Evaluate(setup, s, tick).state.fills, |s.fills|, side);
      filled > 0 ==> exists price: i128, quantity: Quantity ::
        Displays(setup.model.evidence, tick.event.payload, side, price, quantity) && filled <= quantity.value
  {
    EvaluateExactly(setup, s, tick);
    var n := StopFrom(setup, s.orders, tick, 0);
    SideFilledIsTaken(setup, s, tick, 0, side);
    SideFilledIsTaken(setup, s, tick, n, side);
    assert s.fills + FillsOf(setup, s.orders, tick, 0) == s.fills;
    TakenWithinShown(setup, s.orders, tick, n, side);
    if TakenBefore(setup, s.orders, tick, n, side) > 0 {
      var shown := ShownTo(setup, tick, side).value;
      assert Displays(setup.model.evidence, tick.event.payload, side, shown.price, shown.quantity);
    }
  }

  // -------------------------------------------------------------------- accepting

  /** The first reason to reject an intent. */
  function Rejection(setup: Setup, origin: Origin, intent: Intent): Option<RejectionReason> {
    if intent.instrument !in setup.universe then Some(OutsideUniverse)
    else if intent.quantity.unit != setup.unit then Some(QuantityUnitMismatch)
    else if intent.orderType.Limit? && !Allowed(setup.policy, intent.orderType.limitPrice) then Some(PriceNotAllowed)
    else match origin.entry
      case EntryAllowed => None
      case EntryRestricted(_) => if intent.orderType.Limit? then None else Some(EntryIsBlocked)
      case _ => Some(EntryIsBlocked)
  }

  /** Microseconds from the event an order answers to the first one that may fill it. */
  function Latency(setup: Setup): int {
    1000 * (setup.model.marketDataLatencyMs + setup.model.orderLatencyMs)
  }

  predicate LatencyFits(setup: Setup, origin: Origin) {
    && setup.model.marketDataLatencyMs + setup.model.orderLatencyMs <= U64_MAX
    && Latency(setup) <= I64_MAX && origin.matchTime + Latency(setup) <= I64_MAX
  }

  /** An intent is rejected for the first reason there is, fails when its time or its sequence does not fit, and otherwise
      becomes the last order, pending and eligible after both latencies. */
  lemma {:induction false} SubmitExactly(setup: Setup, s: State, origin: Origin, id: OrderId, intent: Intent)
    ensures var r := Submit(setup, s, origin, id, intent);
      match Rejection(setup, origin, intent)
      case Some(reason) => r == Outcome(s, Ok(Rejected(reason)))
      case None =>
        if !LatencyFits(setup, origin) then r == Outcome(s, Err(LatencyOverflow))
        else if s.nextSequence == U64_MAX then r == Outcome(s, Err(SequenceOverflow))
        else
          && r.result == Ok(Accepted) && r.state.fills == s.fills && r.state.nextSequence == s.nextSequence + 1
          && |r.state.orders| == |s.orders| + 1 && r.state.orders[..|s.orders|] == s.orders
          && r.state.orders[|s.orders|] == Order(id, intent, origin.ordinal, origin.matchTime, origin.matchTime + Latency(setup),
                                                 origin.segment, s.nextSequence, 0, Pending)
  {
    LatencyAdds(origin.matchTime, setup.model.marketDataLatencyMs, setup.model.orderLatencyMs);
  }

  lemma {:induction false} LatencyAdds(matchTime: i64, marketDataMs: u64, orderMs: u64)
    ensures AddLatency(matchTime, marketDataMs, orderMs)
      == if marketDataMs + orderMs <= U64_MAX && 1000 * (marketDataMs + orderMs) <= I64_MAX && matchTime + 1000 * (marketDataMs + orderMs) <= I64_MAX
         then Ok(matchTime + 1000 * (marketDataMs + orderMs)) else Err(LatencyOverflow)
  {
  }

  // ------------------------------------------------------------------- cancelling

  /** At the end of a segment its working orders are cancelled, at the end of a run all of them; nothing else changes. */
  lemma {:induction false} CancellingExactly(s: State, segment: string, i: nat)
    requires i < |s.orders|
    ensures var o, works := s.orders[i], s.orders[i].status == Pending || s.orders[i].status == PartiallyFilled;
      var t, u := CancelSegment(s, segment), CancelEndOfRun(s);
      && t == s.(orders := t.orders) && u == s.(orders := u.orders) && |t.orders| == |u.orders| == |s.orders|
      && t.orders[i] == (if works && o.segment == segment then o.(status := Cancelled) else o)
      && u.orders[i] == (if works then o.(status := Cancelled) else o)
  {
    var ofSegment, all := (o: Order) => o.segment == segment, (o: Order) => true;
    CancelsWhere(s, ofSegment);
    CancelsWhere(s, all);
    assert ofSegment(s.orders[i]) == (s.orders[i].segment == segment) && all(s.orders[i]);
    assert CancelSegment(s, segment) == CancelWhere(s, ofSegment) && CancelEndOfRun(s) == CancelWhere(s, all);
  }
}
