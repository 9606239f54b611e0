/** The simulator object of the event-driven model; its orders and fills change in place. */
module Matching {
  import opened Wrappers
  import opened MachineIntegers
  import opened MarketTypes
  import opened Trading
  import opened MatchingModel
  import opened MatchingProperties

  class Simulator {
    const setup: Setup
    var orders: seq<Order>
    var fills: seq<FillRecord>
    var nextSequence: u64

    ghost function Now(): State
      reads this
    {
      State(orders, fills, nextSequence)
    }

    /** What every operation keeps, but one with a repeated order id. */
    ghost predicate Valid()
      reads this
    {
      // Compared with `true`, the invariant is not unfolded in every method.
      Inv(setup, Now()) == true
    }

    constructor (setup: Setup)
      ensures this.setup == setup && Now() == Initial && Valid()
    {
      this.setup := setup;
      orders, fills, nextSequence := [], [], 1;
    }

    method SubmitIntent(origin: Origin, id: OrderId, intent: Intent) returns (r: Result<Feedback, SimError>)
      modifies this
      ensures Outcome(Now(), r) == Submit(setup, old(Now()), origin, id, intent)
      ensures old(Valid() && MatchingProperties.FreshId(Now(), id)) ==> Valid()
    {
      if Valid() && MatchingProperties.FreshId(Now(), id) {
        StepKeepsInv(setup, Now(), SubmitOp(origin, id, intent));
      }
      if intent.instrument !in setup.universe {
        return Ok(Rejected(OutsideUniverse));
      }
      if intent.quantity.unit != setup.unit {
        return Ok(Rejected(QuantityUnitMismatch));
      }
      if !LimitAccepted(intent.orderType, setup.policy) {
        return Ok(Rejected(PriceNotAllowed));
      }
      if !EntryAllows(origin.entry, intent.orderType) {
        return Ok(Rejected(EntryIsBlocked));
      }
      var eligibleAt :- AddLatency(origin.matchTime, setup.model.marketDataLatencyMs, setup.model.orderLatencyMs);
      var sequence: int := nextSequence;
      if !IsU64(sequence + 1) {
        return Err(SequenceOverflow);
      }
      nextSequence := sequence + 1;
      orders := orders + [Order(id, intent, origin.ordinal, origin.matchTime, eligibleAt, origin.segment, sequence, 0, Pending)];
      return Ok(Accepted);
    }

    method EvaluateEvent(tick: Tick) returns (r: Result<(), SimError>)
      modifies this
      ensures Outcome(Now(), r) == Evaluate(setup, old(Now()), tick)
      ensures old(Valid()) ==> Valid()
    {
      if Valid() {
        StepKeepsInv(setup, Now(), EvaluateOp(tick));
      }
      if tick.volatilityInterruption {
        CancelOrders((o: Order) => Interrupted(o, tick.event.instrument));
        return Ok(());
      }
      if !tick.matching.Enabled? || tick.entry == EntryBlocked || tick.entry == EntryUnknown {
        return Ok(());
      }
      r := MatchOrders(tick, Available(Offered(setup, tick.event, Buy), Offered(setup, tick.event, Sell)));
    }

    method MatchOrders(tick: Tick, offered: Available) returns (r: Result<(), SimError>)
      modifies this
      ensures Outcome(Now(), r) == MatchFrom(setup, old(Now()), tick, offered, 0)
    {
      var available := offered;
      for i := 0 to |orders|
        invariant |orders| == old(|orders|)
        invariant MatchFrom(setup, old(Now()), tick, offered, 0) == MatchFrom(setup, Now(), tick, available, i)
      {
        var order := orders[i];
        var side := order.intent.side;
        var shown := For(available, side);
        if !Eligible(order, tick) || shown == None || shown.value.quantity.unit != order.intent.quantity.unit
           || !LimitTouched(order.intent, shown.value.price) {
          continue;
        }
        var price :- Slipped(setup, shown.value.price, side);
        if !LimitTouched(order.intent, price) {
          continue;
        }
        var value := if setup.model.quantity == Unlimited then Remaining(order) else Min(Remaining(order), shown.value.quantity.value);
        if value == 0 {
          continue;
        }
        ghost var before, x := Now(), Execution(price, value);
        assert Execute(setup, order, tick, shown) == Ok(Some(x));
        RecordFill(i, tick, price, value);
        if setup.model.quantity == Displayed {
          available := With(available, side,
                            if value >= shown.value.quantity.value then None
                            else Some(Shown(shown.value.price, Quantity(shown.value.quantity.value - value, shown.value.quantity.unit))));
        }
        assert Now() == Filling(before, i, tick, x);
      }
      return Ok(());
    }

    method RecordFill(i: nat, tick: Tick, price: i128, value: u64)
      requires i < |orders| && value > 0
      modifies this`orders, this`fills
      ensures Now() == Filling(old(Now()), i, tick, Execution(price, value))
    {
      var order := orders[i];
      var filled := order.(filled := order.filled + value);
      orders := orders[i := filled.(status := if Remaining(filled) == 0 then Filled else PartiallyFilled)];
      fills := fills + [FillRecord(order.id, MarketEvent(tick.ordinal), tick.event.matchTime, order.intent.side, price,
                                   Quantity(value, order.intent.quantity.unit))];
    }

    method CancelOrders(which: Order -> bool)
      modifies this`orders
      ensures Now() == CancelWhere(old(Now()), which)
    {
      ghost var before := orders;
      for i := 0 to |orders|
        invariant |orders| == |before|
        invariant forall j :: 0 <= j < i ==>
          orders[j] == if which(before[j]) && Working(before[j]) then before[j].(status := Cancelled) else before[j]
        invariant forall j :: i <= j < |before| ==> orders[j] == before[j]
      {
        if which(orders[i]) && Working(orders[i]) {
          orders := orders[i := orders[i].(status := Cancelled)];
        }
      }
    }

    method CancelSegmentEnd(segment: string)
      modifies this
      ensures Now() == CancelSegment(old(Now()), segment)
      ensures old(Valid()) ==> Valid()
    {
      if Valid() {
        StepKeepsInv(setup, Now(), SegmentOp(segment));
      }
      CancelOrders((o: Order) => o.segment == segment);
    }

    method CancelAtEndOfRun()
      modifies this
      ensures Now() == CancelEndOfRun(old(Now()))
      ensures old(Valid()) ==> Valid()
    {
      if Valid() {
        StepKeepsInv(setup, Now(), EndOp);
      }
      CancelOrders((o: Order) => true);
    }
  }
}
