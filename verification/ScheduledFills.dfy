/**
 What the scheduled simulator fills, in full: what an activation does under each policy, what an evaluation takes from which
 side of which book, and whom an auction fills at which price.
 */
module ScheduledFills {
  import opened Wrappers
  import opened MachineIntegers
  import opened MarketTypes
  import opened Book
  import opened Depth
  import opened DepthMeaning
  import opened Trading
  import opened ScheduledModel
  import opened ScheduledInvariant
  import opened ScheduledSteps
  import opened ScheduledEffects

  // ------------------------------------------------------------ one order's sweep

  /** A visible book, its age known and within what is allowed. */
  predicate HasBook(s: State, k: InstrumentId, at: i64) {
    k in s.books && s.books[k].visibleAt <= at
  }

  predicate AgeUnknown(configs: Configs, s: State, k: InstrumentId, at: i64)
    requires k in configs && k in s.books
  {
    configs[k].model.maxStaleMs * 1000 > I64_MAX || at - s.books[k].matchTime > I64_MAX || at - s.books[k].matchTime < I64_MIN
  }

  predicate Stale(configs: Configs, s: State, k: InstrumentId, at: i64)
    requires k in configs && k in s.books
  {
    at < s.books[k].matchTime || at - s.books[k].matchTime > configs[k].model.maxStaleMs * 1000
  }

  predicate MatchingIsOn(s: State, k: InstrumentId, at: i64) {
    k in s.trading && s.trading[k].visibleAt <= at && match s.trading[k].matching
      case Enabled(_) => true
      case MatchingClosed => false
      case MatchingUnknown => false
  }

  /** The visible trading state lets no such order in. */
  predicate EntryRefused(s: State, o: Order, at: i64) {
    var k := o.request.intent.instrument;
    k in s.trading && s.trading[k].visibleAt <= at && match s.trading[k].entry
      case EntryAllowed => false
      case EntryRestricted(_) => o.request.intent.orderType == Market
      case EntryBlocked => true
      case EntryUnknown => true
  }

  /** What is gone already of the side that the order takes from. */
  function GoneFor(b: BookState, side: OrderSide): Counts {
    match side
    case Buy => b.consumedAsks
    case Sell => b.consumedBids
  }

  /** The sweep of all that an order asks for. */
  function SweepOf(configs: Configs, s: State, o: Order): Result<Sweep, DepthError>
    requires o.request.intent.instrument in configs && o.request.intent.instrument in s.books
  {
    var intent := o.request.intent;
    var b, model := s.books[intent.instrument], configs[intent.instrument].model;
    SweepDepth(b.book, intent.quantity, model.depthLevels, Rule(intent.side, intent.orderType, model.delta), GoneFor(b, intent.side))
  }

  /** A positive-only instrument is not filled at such a price. */
  ghost predicate BadPrice(configs: Configs, k: InstrumentId, fills: seq<LevelFill>)
    requires k in configs
  {
    configs[k].policy == PositiveOnly && exists j :: 0 <= j < |fills| && fills[j].price <= 0
  }

  // ---------------------------------------------------------------- what is booked

  /** One record for each level something is taken of, in order, with the order's total so far and the times of the book. */
  ghost predicate RecordsAre(records: seq<Fill>, o: Order, slots: seq<Option<BookLevel>>, taken: seq<nat>, p: nat, total: nat, at: i64, rule: Rule,
                             b: BookState)
  {
    if taken == [] then records == []
    else if taken[0] == 0 then RecordsAre(records, o, slots, taken[1..], p + 1, total, at, rule, b)
    else
      && records != [] && p < |slots| && slots[p].Some?
      && records[0] == Fill(o.id, o.request.intent.instrument, at, o.request.intent.side, p + 1, PriceAt(slots[p].value, rule), taken[0],
                            total + taken[0], FromDepth(b.matchTime, b.visibleAt))
      && RecordsAre(records[1..], o, slots, taken[1..], p + 1, total + taken[0], at, rule, b)
  }

  /** `t` is `s` after order `i` took so much of each level of the side it takes from, and got its status. */
  ghost predicate Takes(configs: Configs, s: State, i: nat, at: i64, taken: seq<nat>, records: seq<Fill>, after: Counts, status: Status, t: State)
    requires i < |s.orders| && s.orders[i].request.intent.instrument in configs && s.orders[i].request.intent.instrument in s.books
  {
    var o := s.orders[i];
    var k, side := o.request.intent.instrument, o.request.intent.side;
    var b, model := s.books[k], configs[k].model;
    var rule := Rule(side, o.request.intent.orderType, model.delta);
    && TakesUpTo(SlotsFor(b.book, side), GoneFor(b, side), model.depthLevels, rule, o.request.intent.quantity.value, taken)
    && RecordsAre(records, o, SlotsFor(b.book, side), taken, 0, 0, at, rule, b)
    && GoneAfter(GoneFor(b, side), taken, after)
    && t == s.(books := s.books[k := if side == Buy then b.(consumedAsks := after) else b.(consumedBids := after)],
               fills := s.fills + records, reported := s.reported + records,
               orders := s.orders[i := o.(filled := Sum(taken), status := status)])
  }

  lemma {:induction false} RecordsOfReport(levels: seq<LevelFill>, o: Order, slots: seq<Option<BookLevel>>, taken: seq<nat>, p: nat, total: nat, at: i64,
                                           unit: QuantityUnit, rule: Rule, b: BookState)
    requires FillsAre(levels, slots, taken, p, unit, rule)
    ensures RecordsAre(Report(o, levels, total, at, FromDepth(b.matchTime, b.visibleAt)), o, slots, taken, p, total, at, rule, b)
  {
    if taken != [] {
      if taken[0] == 0 {
        RecordsOfReport(levels, o, slots, taken[1..], p + 1, total, at, unit, rule, b);
      } else {
        RecordsOfReport(levels[1..], o, slots, taken[1..], p + 1, total + taken[0], at, unit, rule, b);
      }
    }
  }

  /** The sweep as the model makes it, from the order's own fields. */
  lemma {:induction false} SweepForExactly(configs: Configs, s: State, o: Order)
    requires o.request.intent.instrument in configs && o.request.intent.instrument in s.books
    ensures var k := o.request.intent.instrument;
      SweepFor(configs[k], s.books[k], o, o.request.intent.quantity)
      == match SweepOf(configs, s, o)
         case Err(e) => Err(SweepFailed(e))
         case Ok(sweep) => if BadPrice(configs, k, sweep.fills) then Err(PriceNotAllowed) else Ok(sweep)
  {
  }

  lemma {:induction false} SweepTaken(configs: Configs, s: State, i: nat, sweep: Sweep, at: i64, status: Status)
    returns (taken: seq<nat>, records: seq<Fill>, after: Counts)
    requires Inv(configs, s) && i < |s.orders| && s.orders[i].filled == 0
    requires s.orders[i].request.intent.instrument in configs && s.orders[i].request.intent.instrument in s.books
    requires sweep.fills == [] || at >= s.orders[i].request.activateAt
    requires SweepFor(configs[s.orders[i].request.intent.instrument], s.books[s.orders[i].request.intent.instrument], s.orders[i],
                      s.orders[i].request.intent.quantity) == Ok(sweep)
    ensures var booked := BookFills(s, i, sweep.fills, 0, at);
      && booked.result == Ok(()) && Takes(configs, s, i, at, taken, records, after, status, WithStatus(booked.state, i, status))
      && sweep.filled == Sum(taken)
  {
    var o := s.orders[i];
    var k, side := o.request.intent.instrument, o.request.intent.side;
    var b, model := s.books[k], configs[k].model;
    var rule := Rule(side, o.request.intent.orderType, model.delta);
    after := SweepBooks(configs, s, i, o.request.intent.quantity, sweep, at);
    assert Consume(GoneFor(b, side), sweep.fills) == Ok(after);
    taken := SweepTakes(b.book, o.request.intent.quantity, model.depthLevels, rule, GoneFor(b, side));
    GoneIsConsumed(GoneFor(b, side), sweep.fills, SlotsFor(b.book, side), taken, o.request.intent.quantity.unit, rule, after);
    BookFillsMeaning(s, i, sweep.fills, 0, at, after);
    records := Report(o, sweep.fills, 0, at, FromDepth(b.matchTime, b.visibleAt));
    RecordsOfReport(sweep.fills, o, SlotsFor(b.book, side), taken, 0, 0, at, o.request.intent.quantity.unit, rule, b);
  }

  // ------------------------------------------------------------------ activation

  /** An order accepted earlier for the same time is still scheduled. */
  ghost predicate OlderIsScheduled(s: State, i: nat)
    requires i < |s.orders|
  {
    exists j :: 0 <= j < i && s.orders[j].status == Scheduled && s.orders[j].request.activateAt == s.orders[i].request.activateAt
  }

  /** Only a scheduled order, at its own time and when no older one has that time, is activated. */
  lemma {:induction false} ActivateExactly(configs: Configs, s: State, id: OrderId, at: i64, i: nat)
    requires Inv(configs, s) && (NoOrder(s, id) || HasOrder(s, id, i))
    ensures Activate(configs, s, id, at)
      == if NoOrder(s, id) then Outcome(s, Err(UnknownOrder))
         else if s.orders[i].status != Scheduled then Outcome(s, Err(OrderAlreadyTerminal))
         else if s.orders[i].request.activateAt != at then Outcome(s, Err(ActivationTimeMismatch))
         else if OlderIsScheduled(s, i) then Outcome(s, Err(ActivationOutOfOrder))
         else ActivateNext(configs, s, i, at)
  {
    if HasOrder(s, id, i) {
      FindsOrder(configs, s, id, i);
      if s.orders[i].request.activateAt == at {
        assert EarlierWaits(s.orders, i, at) <==> OlderIsScheduled(s, i);
      }
    }
  }

  /** An activation that is not refused, except of an order that wants the depth at that time: an order that may not enter
      fails, one for later depth or for an auction becomes active and nothing is filled, and a settlement is one fill of the
      whole limit order at its limit. */
  lemma {:induction false} PolicyExactly(configs: Configs, s: State, i: nat, at: i64)
    requires Inv(configs, s) && i < |s.orders| && s.orders[i].status == Scheduled
    requires EntryRefused(s, s.orders[i], at) || s.orders[i].request.policy != DepthAtActivation
    ensures var o, r := s.orders[i], ActivateNext(configs, s, i, at);
      var quantity := o.request.intent.quantity.value;
      if EntryRefused(s, o, at) then r == Outcome(Marked(s, i, Failed(NewOrderEntryBlocked)), Ok(Failed(NewOrderEntryBlocked)))
      else if o.request.policy == DepthUntilExpiry || o.request.policy == AuctionCross then r == Outcome(Marked(s, i, Active), Ok(Active))
      else if o.request.intent.orderType == Market then r == Outcome(s, Err(InvalidSettlementOrderType))
      else
        var record := Fill(o.id, o.request.intent.instrument, at, o.request.intent.side, 1, o.request.intent.orderType.limitPrice, quantity,
                           quantity, FromSettlement);
        r == Outcome(s.(fills := s.fills + [record], reported := s.reported + [record],
                        orders := s.orders[i := o.(filled := quantity, status := Filled)]), Ok(Filled))
  {
    assert OrderOk(configs, s.fills, s.orders[i]);
  }

  /** How such an order ends: nothing is filled without a visible, fresh book and matching; and a sweep that can be made is
      booked whole, also when it is less than is asked for. */
  ghost predicate DepthTaken(configs: Configs, s: State, i: nat, at: i64, taken: seq<nat>, records: seq<Fill>, after: Counts, r: Outcome<Status>)
    requires i < |s.orders| && s.orders[i].request.intent.instrument in configs
  {
    var o := s.orders[i];
    var k := o.request.intent.instrument;
    if !HasBook(s, k, at) then r == Outcome(Marked(s, i, Failed(MissingVisibleDepth)), Ok(Failed(MissingVisibleDepth)))
    else if AgeUnknown(configs, s, k, at) then r == Outcome(s, Err(StalenessOverflow))
    else if Stale(configs, s, k, at) then r == Outcome(Marked(s, i, Failed(StaleVisibleDepth)), Ok(Failed(StaleVisibleDepth)))
    else if !MatchingIsOn(s, k, at) then r == Outcome(Marked(s, i, Failed(MatchingDisabled)), Ok(Failed(MatchingDisabled)))
    else match SweepOf(configs, s, o)
      case Err(e) => r == Outcome(s, Err(SweepFailed(e)))
      case Ok(sweep) =>
        if BadPrice(configs, k, sweep.fills) then r == Outcome(s, Err(PriceNotAllowed))
        else
          var status := if Sum(taken) == o.request.intent.quantity.value then Filled
                        else if Sum(taken) == 0 && o.request.intent.orderType != Market then Failed(PriceNotMarketable)
                        else Failed(InsufficientVisibleDepth);
          r.result == Ok(status) && Takes(configs, s, i, at, taken, records, after, status, r.state)
  }

  lemma {:induction false} DepthExactly(configs: Configs, s: State, i: nat, at: i64)
    returns (taken: seq<nat>, records: seq<Fill>, after: Counts)
    requires Inv(configs, s) && i < |s.orders| && s.orders[i].status == Scheduled && s.orders[i].request.activateAt == at
    requires !EntryRefused(s, s.orders[i], at) && s.orders[i].request.policy == DepthAtActivation
    ensures s.orders[i].request.intent.instrument in configs
    ensures DepthTaken(configs, s, i, at, taken, records, after, ActivateNext(configs, s, i, at))
  {
    taken, records, after := [], [], [0, 0, 0, 0, 0];
    var o := s.orders[i];
    var k := o.request.intent.instrument;
    assert OrderOk(configs, s.fills, o);
    if HasBook(s, k, at) && !AgeUnknown(configs, s, k, at) && !Stale(configs, s, k, at) && MatchingIsOn(s, k, at) {
      SweepForExactly(configs, s, o);
      var swept := SweepFor(configs[k], s.books[k], o, o.request.intent.quantity);
      if swept.Ok? {
        taken, records, after := FinishExactly(configs, s, i, swept.value, at);
      }
      assert ActivateNext(configs, s, i, at) ==
        if swept.Err? then Outcome(s, Err(swept.error)) else FinishActivation(s, i, swept.value, at);
    }
  }

  lemma {:induction false} FinishExactly(configs: Configs, s: State, i: nat, sweep: Sweep, at: i64)
    returns (taken: seq<nat>, records: seq<Fill>, after: Counts)
    requires Inv(configs, s) && i < |s.orders| && s.orders[i].filled == 0 && s.orders[i].request.activateAt == at
    requires s.orders[i].request.intent.instrument in configs && s.orders[i].request.intent.instrument in s.books
    requires SweepFor(configs[s.orders[i].request.intent.instrument], s.books[s.orders[i].request.intent.instrument], s.orders[i],
                      s.orders[i].request.intent.quantity) == Ok(sweep)
    ensures var o, r := s.orders[i], FinishActivation(s, i, sweep, at);
      var status := if Sum(taken) == o.request.intent.quantity.value then Filled
                    else if Sum(taken) == 0 && o.request.intent.orderType != Market then Failed(PriceNotMarketable)
                    else Failed(InsufficientVisibleDepth);
      r.result == Ok(status) && Takes(configs, s, i, at, taken, records, after, status, r.state)
  {
    var o := s.orders[i];
    var _ := SweepBooks(configs, s, i, o.request.intent.quantity, sweep, at);
    var reason := if sweep.filled == 0 && o.request.intent.orderType != Market then PriceNotMarketable else InsufficientVisibleDepth;
    var status := if sweep.filled == o.request.intent.quantity.value then Filled else Failed(reason);
    taken, records, after := SweepTaken(configs, s, i, sweep, at, status);
    var booked := BookFills(s, i, sweep.fills, 0, at).state;
    assert booked.orders[i].filled == WithStatus(booked, i, status).orders[i].filled == sweep.filled;
    assert FinishActivation(s, i, sweep, at) == Outcome(WithStatus(booked, i, status), Ok(status));
  }

  // ------------------------------------------------------------------ evaluation

  /** The same of an order that waits for depth; without a usable book it goes on waiting, and a sweep before the order's
      time records and then refuses its first fill. */
  ghost predicate PassiveTaken(configs: Configs, s: State, i: nat, at: i64, taken: seq<nat>, records: seq<Fill>, after: Counts, r: Outcome<Option<Status>>)
    requires i < |s.orders| && s.orders[i].request.intent.instrument in configs
  {
    var o := s.orders[i];
    var k := o.request.intent.instrument;
    if !HasBook(s, k, at) then r == Outcome(s, Ok(None))
    else if AgeUnknown(configs, s, k, at) then r == Outcome(s, Err(StalenessOverflow))
    else if Stale(configs, s, k, at) || !MatchingIsOn(s, k, at) then r == Outcome(s, Ok(None))
    else match SweepOf(configs, s, o)
      case Err(e) => r == Outcome(s, Err(SweepFailed(e)))
      case Ok(sweep) =>
        if BadPrice(configs, k, sweep.fills) then r == Outcome(s, Err(PriceNotAllowed))
        else if sweep.fills != [] && at < o.request.activateAt
        then r.result == Err(FillFeedback) && exists p :: TakesFirst(configs, s, i, at, taken, p, after, r.state)
        else
          var status := if Sum(taken) == o.request.intent.quantity.value then Filled
                        else if Sum(taken) > 0 then PartiallyFilled else MatchAttempted;
          r.result == Ok(Some(status)) && Takes(configs, s, i, at, taken, records, after, status, r.state)
  }

  lemma {:induction false} PassiveExactly(configs: Configs, s: State, i: nat, at: i64)
    returns (taken: seq<nat>, records: seq<Fill>, after: Counts)
    requires Inv(configs, s) && i < |s.orders| && s.orders[i].status == Active
    ensures s.orders[i].request.intent.instrument in configs
    ensures PassiveTaken(configs, s, i, at, taken, records, after, ExecutePassive(configs, s, i, at))
  {
    taken, records, after := [], [], [0, 0, 0, 0, 0];
    var o := s.orders[i];
    var k := o.request.intent.instrument;
    assert OrderOk(configs, s.fills, o);
    PassiveIs(configs, s, i, at);
    if HasBook(s, k, at) && !AgeUnknown(configs, s, k, at) && !Stale(configs, s, k, at) && MatchingIsOn(s, k, at) {
      SweepForExactly(configs, s, o);
      var swept := SweepFor(configs[k], s.books[k], o, o.request.intent.quantity);
      if swept.Ok? {
        taken, records, after := SettleExactly(configs, s, i, swept.value, at);
      }
    }
  }

  lemma {:induction false} PassiveIs(configs: Configs, s: State, i: nat, at: i64)
    requires i < |s.orders| && s.orders[i].request.intent.instrument in configs && s.orders[i].filled == 0
    ensures var o := s.orders[i];
      var k := o.request.intent.instrument;
      ExecutePassive(configs, s, i, at) ==
        if !HasBook(s, k, at) then Outcome(s, Ok(None))
        else if AgeUnknown(configs, s, k, at) then Outcome(s, Err(StalenessOverflow))
        else if Stale(configs, s, k, at) || !MatchingIsOn(s, k, at) then Outcome(s, Ok(None))
        else match SweepFor(configs[k], s.books[k], o, o.request.intent.quantity)
          case Err(e) => Outcome(s, Err(e))
          case Ok(sweep) => SettlePassive(s, i, o.request.intent.quantity, sweep, at)
  {
  }

  lemma {:induction false} SettleExactly(configs: Configs, s: State, i: nat, sweep: Sweep, at: i64)
    returns (taken: seq<nat>, records: seq<Fill>, after: Counts)
    requires Inv(configs, s) && i < |s.orders| && s.orders[i].filled == 0
    requires s.orders[i].request.intent.instrument in configs && s.orders[i].request.intent.instrument in s.books
    requires SweepFor(configs[s.orders[i].request.intent.instrument], s.books[s.orders[i].request.intent.instrument], s.orders[i],
                      s.orders[i].request.intent.quantity) == Ok(sweep)
    ensures var o, r := s.orders[i], SettlePassive(s, i, s.orders[i].request.intent.quantity, sweep, at);
      var status := if Sum(taken) == o.request.intent.quantity.value then Filled
                    else if Sum(taken) > 0 then PartiallyFilled else MatchAttempted;
      if sweep.fills != [] && at < o.request.activateAt
      then r.result == Err(FillFeedback) && exists p :: TakesFirst(configs, s, i, at, taken, p, after, r.state)
      else r.result == Ok(Some(status)) && Takes(configs, s, i, at, taken, records, after, status, r.state)
  {
    var o := s.orders[i];
    var quantity := o.request.intent.quantity;
    if sweep.fills != [] && at < o.request.activateAt {
      records := [];
      taken, after := EarlyExactly(configs, s, i, sweep, at);
    } else {
      taken, records, after := SweepTaken(configs, s, i, sweep, at,
        if sweep.filled == quantity.value then Filled else if sweep.filled > 0 then PartiallyFilled else MatchAttempted);
    }
  }

  /** `t` is `s` after only the first level's fill was counted and recorded, but neither reported nor added to the order. */
  ghost predicate TakesFirst(configs: Configs, s: State, i: nat, at: i64, taken: seq<nat>, p: nat, after: Counts, t: State)
    requires i < |s.orders| && s.orders[i].request.intent.instrument in configs && s.orders[i].request.intent.instrument in s.books
  {
    var o := s.orders[i];
    var k, side := o.request.intent.instrument, o.request.intent.side;
    var b, model := s.books[k], configs[k].model;
    var slots, rule := SlotsFor(b.book, side), Rule(side, o.request.intent.orderType, model.delta);
    && TakesUpTo(slots, GoneFor(b, side), model.depthLevels, rule, o.request.intent.quantity.value, taken)
    && p < |taken| && p < |slots| && slots[p].Some? && taken[p] > 0 && (forall q :: 0 <= q < p ==> taken[q] == 0)
    && after == GoneFor(b, side)[p := GoneFor(b, side)[p] + taken[p]]
    && t == s.(books := s.books[k := if side == Buy then b.(consumedAsks := after) else b.(consumedBids := after)],
               fills := s.fills + [Fill(o.id, k, at, side, p + 1, PriceAt(slots[p].value, rule), taken[p], taken[p],
                                        FromDepth(b.matchTime, b.visibleAt))])
  }

  lemma {:induction false} FirstTaken(levels: seq<LevelFill>, slots: seq<Option<BookLevel>>, taken: seq<nat>, index: nat, unit: QuantityUnit, rule: Rule)
    returns (p: nat)
    requires FillsAre(levels, slots, taken, index, unit, rule) && levels != []
    ensures p < |taken| && taken[p] > 0 && forall q :: 0 <= q < p ==> taken[q] == 0
    ensures index + p < |slots| && slots[index + p].Some? && levels[0].levelIndex == index + p + 1
    ensures levels[0].price == PriceAt(slots[index + p].value, rule) && levels[0].quantity.value == taken[p]
  {
    if taken[0] > 0 {
      p := 0;
    } else {
      var q := FirstTaken(levels, slots, taken[1..], index + 1, unit, rule);
      p := q + 1;
      assert taken[p] == taken[1..][q];
    }
  }

  lemma {:induction false} EarlyExactly(configs: Configs, s: State, i: nat, sweep: Sweep, at: i64) returns (taken: seq<nat>, after: Counts)
    requires Inv(configs, s) && i < |s.orders| && s.orders[i].filled == 0 && sweep.fills != [] && at < s.orders[i].request.activateAt
    requires s.orders[i].request.intent.instrument in configs && s.orders[i].request.intent.instrument in s.books
    requires SweepFor(configs[s.orders[i].request.intent.instrument], s.books[s.orders[i].request.intent.instrument], s.orders[i],
                      s.orders[i].request.intent.quantity) == Ok(sweep)
    ensures var r := SettlePassive(s, i, s.orders[i].request.intent.quantity, sweep, at);
      r.result == Err(FillFeedback) && exists p :: TakesFirst(configs, s, i, at, taken, p, after, r.state)
  {
    var o := s.orders[i];
    var k, side := o.request.intent.instrument, o.request.intent.side;
    var b, model := s.books[k], configs[k].model;
    var rule := Rule(side, o.request.intent.orderType, model.delta);
    var all := SweepBooks(configs, s, i, o.request.intent.quantity, sweep, at);
    taken := SweepTakes(b.book, o.request.intent.quantity, model.depthLevels, rule, GoneFor(b, side));
    var p := FirstTaken(sweep.fills, SlotsFor(b.book, side), taken, 0, o.request.intent.quantity.unit, rule);
    ConsumeFirst(GoneFor(b, side), sweep.fills);
    after := Consume(GoneFor(b, side), [sweep.fills[0]]).value;
    assert [sweep.fills[0]][1..] == [];
    var t := SettlePassive(s, i, o.request.intent.quantity, sweep, at).state;
    assert TakesFirst(configs, s, i, at, taken, p, after, t);
  }

  /** An order that an evaluation of the instrument executes. */
  predicate WaitsFor(o: Order, k: InstrumentId) {
    o.status == Active && o.request.intent.instrument == k && o.request.policy == DepthUntilExpiry
  }

  /** One order's turn: it is executed on what the orders before it left, or passed over. */
  ghost predicate Turn(configs: Configs, s: State, k: InstrumentId, at: i64, j: nat, u: State, t: State) {
    && j < |s.orders| == |u.orders|
    && if WaitsFor(s.orders[j], k) then ExecutePassive(configs, u, j, at).result.Ok? && t == ExecutePassive(configs, u, j, at).state else t == u
  }

  /** The waiting orders have their turns oldest first, up to the first that fails. */
  lemma {:induction false} EvaluateTurns(configs: Configs, s: State, k: InstrumentId, at: i64) returns (turns: seq<State>)
    ensures 0 < |turns| <= |s.orders| + 1 && turns[0] == s
    ensures forall j :: 0 <= j < |turns| - 1 ==> Turn(configs, s, k, at, j, turns[j], turns[j + 1])
    ensures var r, n := EvaluateActive(configs, s, k, at), |turns| - 1;
      && |turns[n].orders| == |s.orders|
      && if n == |s.orders| then r == Outcome(turns[n], Ok(()))
         else
           var failed := ExecutePassive(configs, turns[n], n, at);
           WaitsFor(s.orders[n], k) && failed.result.Err? && r == Outcome(failed.state, Err(failed.result.error))
  {
    turns := [s];
    var n, u := 0, s;
    while n < |s.orders| && !(WaitsFor(s.orders[n], k) && ExecutePassive(configs, u, n, at).result.Err?)
      invariant n <= |s.orders| == |u.orders| && |turns| == n + 1 && turns[0] == s && turns[n] == u
      invariant forall j :: n <= j < |s.orders| ==> u.orders[j] == s.orders[j]
      invariant forall j :: 0 <= j < |turns| - 1 ==> Turn(configs, s, k, at, j, turns[j], turns[j + 1])
      invariant EvaluateActive(configs, s, k, at) == EvaluateFrom(configs, u, k, at, n)
    {
      var next := if WaitsFor(s.orders[n], k) then ExecutePassive(configs, u, n, at).state else u;
      assert Turn(configs, s, k, at, n, u, next);
      turns := turns + [next];
      n, u := n + 1, next;
    }
  }

  // -------------------------------------------------------------------- auctions

  /** An order that takes part: active, for this auction's instrument, and due. */
  predicate TakesPart(o: Order, e: AuctionEvidence) {
    o.status == Active && o.request.intent.instrument == e.instrument && o.request.policy == AuctionCross && o.request.activateAt <= e.matchTime
  }

  /** Its limit is strictly better than the clearing price. */
  predicate Better(o: Order, price: int) {
    && o.request.intent.orderType != Market
    && match o.request.intent.side
       case Buy => o.request.intent.orderType.limitPrice > price
       case Sell => o.request.intent.orderType.limitPrice < price
  }

  function AfterAuction(o: Order, e: AuctionEvidence): Order {
    if !TakesPart(o, e) then o
    else if Better(o, e.price) then o.(filled := o.request.intent.quantity.value, status := Filled)
    else o.(status := MatchAttempted)
  }

  /** Such an order is filled all it asks for, at the clearing price. */
  function FillOfAuction(o: Order, e: AuctionEvidence): seq<Fill> {
    var quantity := o.request.intent.quantity.value;
    if TakesPart(o, e) && Better(o, e.price)
    then [Fill(o.id, o.request.intent.instrument, e.matchTime, o.request.intent.side, 1, e.price, quantity, quantity, FromAuction(e.price))]
    else []
  }

  function AuctionFills(orders: seq<Order>, e: AuctionEvidence): seq<Fill> {
    if orders == [] then [] else FillOfAuction(orders[0], e) + AuctionFills(orders[1..], e)
  }

  /** What an auction match changes. */
  lemma {:induction false} AuctionExactly(configs: Configs, s: State, e: AuctionEvidence)
    ensures var r := EvaluateAuction(configs, s, e);
      if e.instrument !in configs then r == Outcome(s, Err(InstrumentOutsideUniverse))
      else if configs[e.instrument].policy == PositiveOnly && e.price <= 0 then r == Outcome(s, Err(PriceNotAllowed))
      else
        var fills := AuctionFills(s.orders, e);
        && r.result == Ok(()) && r.state == s.(orders := r.state.orders, fills := s.fills + fills, reported := s.reported + fills)
        && |r.state.orders| == |s.orders| && forall i :: 0 <= i < |s.orders| ==> r.state.orders[i] == AfterAuction(s.orders[i], e)
  {
    AuctionTurns(s, e, 0);
    assert s.orders[0..] == s.orders;
  }

  /** The orders from `i` on are done. */
  ghost predicate AuctionDone(s: State, e: AuctionEvidence, i: nat, fills: seq<Fill>, t: State) {
    && t == s.(orders := t.orders, fills := s.fills + fills, reported := s.reported + fills) && |t.orders| == |s.orders|
    && (forall j :: 0 <= j < i && j < |s.orders| ==> t.orders[j] == s.orders[j])
    && (forall j :: i <= j < |s.orders| ==> t.orders[j] == AfterAuction(s.orders[j], e))
  }

  lemma {:induction false} AuctionTurns(s: State, e: AuctionEvidence, i: nat)
    requires i <= |s.orders|
    ensures AuctionDone(s, e, i, AuctionFills(s.orders[i..], e), AuctionFrom(s, e, i))
    decreases |s.orders| - i
  {
    if i == |s.orders| {
      assert s.fills + [] == s.fills && s.reported + [] == s.reported;
    } else {
      var u := if WaitsForAuction(s.orders[i], e) then AuctionStep(s, e, i) else s;
      AuctionTurn(s, e, i, u);
      AuctionTurns(u, e, i + 1);
      assert s.orders[i..][1..] == s.orders[i + 1..] == u.orders[i + 1..];
      AuctionJoins(s, e, i, u, FillOfAuction(s.orders[i], e), AuctionFills(u.orders[i + 1..], e), AuctionFrom(u, e, i + 1));
    }
  }

  lemma {:induction false} AuctionTurn(s: State, e: AuctionEvidence, i: nat, u: State)
    requires i < |s.orders| && u == if WaitsForAuction(s.orders[i], e) then AuctionStep(s, e, i) else s
    ensures var fills := FillOfAuction(s.orders[i], e);
      u == s.(orders := s.orders[i := AfterAuction(s.orders[i], e)], fills := s.fills + fills, reported := s.reported + fills)
  {
    assert s.fills + [] == s.fills && s.reported + [] == s.reported;
    assert s.orders[i := s.orders[i]] == s.orders;
  }

  lemma {:induction false} AuctionJoins(s: State, e: AuctionEvidence, i: nat, u: State, first: seq<Fill>, rest: seq<Fill>, t: State)
    requires i < |s.orders|
    requires u == s.(orders := s.orders[i := AfterAuction(s.orders[i], e)], fills := s.fills + first, reported := s.reported + first)
    requires AuctionDone(u, e, i + 1, rest, t)
    ensures AuctionDone(s, e, i, first + rest, t)
  {
    assert s.fills + first + rest == s.fills + (first + rest) && s.reported + first + rest == s.reported + (first + rest);
    assert t.orders[i] == u.orders[i];
  }
}
