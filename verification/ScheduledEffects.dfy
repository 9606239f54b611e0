/**
 What each operation of the scheduled simulator does, in full: its errors in their order, which orders it changes and how, and
 what it takes from which side of which book.
 */
module ScheduledEffects {
  import opened Wrappers
  import opened MachineIntegers
  import opened MarketTypes
  import opened Book
  import opened Greedy
  import opened Depth
  import opened DepthMeaning
  import opened Trading
  import opened ScheduledModel
  import opened ScheduledInvariant
  import opened ScheduledSteps

  /** The order with an id; ids are distinct. */
  ghost predicate HasOrder(s: State, id: OrderId, i: nat) {
    i < |s.orders| && s.orders[i].id == id
  }

  ghost predicate NoOrder(s: State, id: OrderId) {
    forall i :: 0 <= i < |s.orders| ==> s.orders[i].id != id
  }

  /** One order has another status, and nothing else is changed. */
  function Marked(s: State, i: nat, status: Status): State
    requires i < |s.orders|
  {
    s.(orders := s.orders[i := s.orders[i].(status := status)])
  }

  lemma {:induction false} FindsOrder(configs: Configs, s: State, id: OrderId, i: nat)
    requires Inv(configs, s) && HasOrder(s, id, i)
    ensures Find(s.orders, id) == Some(i)
  {
    OneIndex(s, i, Find(s.orders, id).value);
  }

  lemma {:induction false} OneIndex(s: State, i: nat, j: nat)
    requires Distinct(s) && i < |s.orders| && j < |s.orders| && s.orders[i].id == s.orders[j].id
    ensures i == j
  {
  }

  // ----------------------------------------------------------------- publications

  predicate Earlier(a: i64, b: i64, x: i64, y: i64) {
    a < x || b < y
  }

  /** A trading state replaces the one of its instrument, unless either of its times goes back. */
  lemma {:induction false} PublishTradingExactly(configs: Configs, s: State, k: InstrumentId, t: TradingState)
    ensures PublishTrading(configs, s, k, t)
      == if k !in configs then Outcome(s, Err(InstrumentOutsideUniverse))
         else if k in s.trading && Earlier(t.visibleAt, t.matchTime, s.trading[k].visibleAt, s.trading[k].matchTime)
         then Outcome(s, Err(RegressingTradingStateTime))
         else Outcome(s.(trading := s.trading[k := t]), Ok(()))
  {
  }

  /** Every level that a side displays before its first empty slot has a price the policy allows. */
  ghost predicate PricesAllowed(side: BookSide, policy: PricePolicy) {
    forall i :: 0 <= i < 5 && (forall j :: 0 <= j <= i ==> side.slots[j].Some?) ==> policy == Signed || side.slots[i].value.price > 0
  }

  lemma {:induction false} PricesExactly(side: BookSide, policy: PricePolicy)
    ensures PricesAccepted(Levels(side.slots), policy) <==> PricesAllowed(side, policy)
  {
    var levels := Levels(side.slots);
    assert forall i :: 0 <= i < |levels| ==> side.slots[i] == Some(levels[i]);
    if PricesAllowed(side, policy) {
      forall i | 0 <= i < |levels| ensures Accepts(policy, levels[i].price) {
        assert forall j :: 0 <= j <= i ==> side.slots[j].Some?;
      }
    }
    if PricesAccepted(levels, policy) {
      forall i | 0 <= i < 5 && forall j :: 0 <= j <= i ==> side.slots[j].Some? ensures policy == Signed || side.slots[i].value.price > 0 {
        assert |levels| < 5 ==> side.slots[|levels|] == None;
        assert i < |levels|;
      }
    }
  }

  /** A book replaces the one of its instrument, with its trading state, and nothing of it is consumed; unless its unit or a
      price is not the instrument's, or a time goes back. */
  lemma {:induction false} PublishBookExactly(configs: Configs, s: State, e: BookEvidence)
    ensures var k, r := e.instrument, PublishBook(configs, s, e);
      r == if k !in configs then Outcome(s, Err(InstrumentOutsideUniverse))
           else if BookUnit(e.book).Some? && BookUnit(e.book).value != configs[k].unit then Outcome(s, Err(SimError.UnitMismatch))
           else if !PricesAllowed(e.book.asks, configs[k].policy) || !PricesAllowed(e.book.bids, configs[k].policy)
           then Outcome(s, Err(PriceNotAllowed))
           else if k in s.books && Earlier(e.trading.visibleAt, e.trading.matchTime, s.books[k].visibleAt, s.books[k].matchTime)
           then Outcome(s, Err(RegressingBookTime))
           else if k in s.trading && Earlier(e.trading.visibleAt, e.trading.matchTime, s.trading[k].visibleAt, s.trading[k].matchTime)
           then Outcome(s, Err(RegressingTradingStateTime))
           else Outcome(s.(books := s.books[k := BookState(e.book, e.trading.matchTime, e.trading.visibleAt, [0, 0, 0, 0, 0], [0, 0, 0, 0, 0])],
                           trading := s.trading[k := e.trading], published := s.published[k := |s.fills|]), Ok(()))
  {
    if e.instrument in configs {
      PricesExactly(e.book.asks, configs[e.instrument].policy);
      PricesExactly(e.book.bids, configs[e.instrument].policy);
    }
  }

  // --------------------------------------------------- orders before activation

  /** The first reason to refuse a submission. */
  function SubmitProblem(configs: Configs, decisionTime: i64, request: Request): Option<SimError> {
    var intent := request.intent;
    if request.activateAt < decisionTime then Some(ActivationBeforeDecision)
    else if intent.instrument !in configs then Some(InstrumentOutsideUniverse)
    else if intent.quantity.unit != configs[intent.instrument].unit then Some(SimError.UnitMismatch)
    else if intent.orderType.Limit? && configs[intent.instrument].policy == PositiveOnly && intent.orderType.limitPrice <= 0
    then Some(PriceNotAllowed) else None
  }

  /** A submission replaces its client's scheduled order, if there is one, and then becomes the last order; a client whose
      order is no longer scheduled is refused. */
  lemma {:induction false} SubmitExactly(configs: Configs, s: State, decisionTime: i64, id: OrderId, request: Request, i: nat)
    requires Inv(configs, s)
    requires request.clientId in s.clients ==> HasOrder(s, s.clients[request.clientId], i)
    ensures var r, problem := Submit(configs, s, decisionTime, id, request), SubmitProblem(configs, decisionTime, request);
      var known := request.clientId in s.clients;
      if problem.Some? then r == Outcome(s, Err(problem.value))
      else if known && s.orders[i].status != Scheduled then r == Outcome(s, Err(ClientOrderAlreadyTerminal))
      else
        var t := if known then Marked(s, i, Replaced) else s;
        if s.nextSequence == U64_MAX then r == Outcome(t, Err(SequenceOverflow))
        else r == Outcome(t.(nextSequence := s.nextSequence + 1, clients := s.clients[request.clientId := id],
                             orders := t.orders + [Order(id, request, s.nextSequence, 0, Scheduled)]), Ok(id))
  {
    if request.clientId in s.clients {
      FindsOrder(configs, s, s.clients[request.clientId], i);
    }
  }

  /** A client's order is cancelled while it is scheduled. */
  lemma {:induction false} CancelExactly(configs: Configs, s: State, clientId: string, i: nat)
    requires Inv(configs, s) && (clientId in s.clients ==> HasOrder(s, s.clients[clientId], i))
    ensures CancelBeforeActivation(s, clientId)
      == if clientId !in s.clients then Outcome(s, Err(UnknownClientOrder))
         else if s.orders[i].status != Scheduled then Outcome(s, Err(OrderAlreadyTerminal))
         else Outcome(Marked(s, i, Cancelled), Ok(()))
  {
    if clientId in s.clients {
      FindsOrder(configs, s, s.clients[clientId], i);
    }
  }

  /** An order that is not over expires at its expiry time. */
  lemma {:induction false} ExpireExactly(configs: Configs, s: State, id: OrderId, at: i64, i: nat)
    requires Inv(configs, s) && (NoOrder(s, id) || HasOrder(s, id, i))
    ensures var over := HasOrder(s, id, i) && match s.orders[i].status {
        case Filled => true
        case Failed(_) => true
        case Expired => true
        case Replaced => true
        case Cancelled => true
        case _ => false
      };
      Expire(s, id, at)
      == if NoOrder(s, id) then Outcome(s, Err(UnknownOrder))
         else if over then Outcome(s, Err(OrderAlreadyTerminal))
         else if s.orders[i].request.expireAt != Some(at) then Outcome(s, Err(ExpiryTimeMismatch))
         else Outcome(Marked(s, i, Expired), Ok(()))
  {
    if HasOrder(s, id, i) {
      FindsOrder(configs, s, id, i);
    }
  }

  /** An interruption cancels the active market orders of its instrument, filled in part or attempted ones included. */
  lemma {:induction false} InterruptExactly(configs: Configs, s: State, k: InstrumentId, i: nat)
    requires i < |s.orders|
    ensures var r, o := CancelInterrupted(configs, s, k), s.orders[i];
      if k !in configs then r == Outcome(s, Err(InstrumentOutsideUniverse))
      else
        && r.result == Ok(()) && r.state == s.(orders := r.state.orders) && |r.state.orders| == |s.orders|
        && r.state.orders[i] ==
             if o.request.intent.instrument == k && o.request.intent.orderType == Market
                && (o.status == Active || o.status == PartiallyFilled || o.status == MatchAttempted)
             then o.(status := Cancelled) else o
  {
  }
}
