/** What holds of the scheduled simulator after every operation. */
module ScheduledInvariant {
  import opened Wrappers
  import opened MachineIntegers
  import opened MarketTypes
  import opened Book
  import opened Depth
  import opened Trading
  import opened ScheduledModel

  // --------------------------------------------------------------------- sums

  /** The quantity filled for an order. */
  function FilledOf(fills: seq<Fill>, id: OrderId): nat {
    if fills == [] then 0
    else FilledOf(fills[..|fills| - 1], id) + (if fills[|fills| - 1].orderId == id then fills[|fills| - 1].quantity else 0)
  }

  /** The quantity taken from one displayed level by the fills from index `from` on. */
  function LevelTaken(fills: seq<Fill>, from: nat, k: InstrumentId, side: OrderSide, level: nat): nat {
    if |fills| <= from then 0
    else LevelTaken(fills[..|fills| - 1], from, k, side, level)
         + (if TakesFrom(fills[|fills| - 1], k, side, level) then fills[|fills| - 1].quantity else 0)
  }

  predicate TakesFrom(f: Fill, k: InstrumentId, side: OrderSide, level: nat) {
    f.origin.FromDepth? && f.instrument == k && f.side == side && f.level == level
  }

  // ---------------------------------------------------------------- invariant

  ghost predicate Distinct(s: State) {
    && (forall i, j :: 0 <= i < j < |s.orders| ==> s.orders[i].id != s.orders[j].id)
    && (forall i, j :: 0 <= i < j < |s.orders| ==> s.orders[i].sequence < s.orders[j].sequence)
    && (forall i :: 0 <= i < |s.orders| ==> s.orders[i].sequence < s.nextSequence)
  }

  /** What an order's status says about its filled quantity. */
  predicate FilledFits(o: Order) {
    var quantity := o.request.intent.quantity.value;
    match o.status
    case Scheduled => o.filled == 0
    case Active => o.filled == 0
    case MatchAttempted => o.filled == 0
    case Replaced => o.filled == 0
    case PartiallyFilled => 0 < o.filled < quantity
    case Filled => o.filled == quantity
    case Failed(_) => o.filled < quantity
    case Expired => o.filled < quantity
    case Cancelled => o.filled < quantity
  }

  ghost predicate OrderOk(configs: Configs, fills: seq<Fill>, o: Order) {
    var intent := o.request.intent;
    && intent.instrument in configs && intent.quantity.unit == configs[intent.instrument].unit
    && LimitAccepted(intent.orderType, configs[intent.instrument].policy)
    && FilledFits(o) && o.filled == FilledOf(fills, o.id)
  }

  /** The order behind a client id, and every other order that has used it. */
  ghost predicate ClientOk(s: State, i: nat)
    requires i < |s.orders|
  {
    var o := s.orders[i];
    o.request.clientId in s.clients && (s.clients[o.request.clientId] != o.id ==> o.status == Replaced)
  }

  ghost predicate IndexOk(s: State, client: string) {
    client in s.clients ==>
      exists i :: 0 <= i < |s.orders| && s.orders[i].id == s.clients[client] && s.orders[i].request.clientId == client
  }

  ghost predicate SideOk(fills: seq<Fill>, from: nat, k: InstrumentId, b: BookState, side: OrderSide) {
    && WithinDisplayed(SideLevels(b.book, side), ConsumedOn(b, side))
    && (forall c :: c in ConsumedOn(b, side) ==> IsU64(c))
    && (forall level :: 1 <= level <= BOOK_DEPTH ==> ConsumedOn(b, side)[level - 1] == LevelTaken(fills, from, k, side, level))
  }

  /** A published book: accepted prices and unit, and per level exactly the depth fills since. */
  ghost predicate BookOk(configs: Configs, s: State, k: InstrumentId) {
    k in s.books ==>
      && k in configs && k in s.published && s.published[k] <= |s.fills|
      && (BookUnit(s.books[k].book) == None || BookUnit(s.books[k].book).value == configs[k].unit)
      && PricesAccepted(SideLevels(s.books[k].book, Buy), configs[k].policy)
      && PricesAccepted(SideLevels(s.books[k].book, Sell), configs[k].policy)
      && SideOk(s.fills, s.published[k], k, s.books[k], Buy) && SideOk(s.fills, s.published[k], k, s.books[k], Sell)
  }

  /** Visible depth is for orders that wait for it, and for those that want it at their activation time only. */
  predicate TakesDepth(o: Order, at: i64) {
    o.request.policy == DepthUntilExpiry || (o.request.policy == DepthAtActivation && at == o.request.activateAt)
  }

  /** A fill obeys its order's limit and policy and its instrument's price policy, and one from depth used a
      book that was visible and not stale. */
  ghost predicate FillObeys(rules: InstrumentRules, o: Order, f: Fill) {
    && Accepts(rules.policy, f.price)
    && match o.request.intent.orderType {
         case Market => f.origin.FromDepth?
         case Limit(limit) => if f.side == Buy then f.price <= limit else f.price >= limit
       }
    && match f.origin {
         case FromDepth(matchTime, visibleAt) =>
              && visibleAt <= f.time && 0 <= f.time - matchTime <= rules.model.maxStaleMs * 1000
              && 1 <= f.level <= rules.model.depthLevels && TakesDepth(o, f.time)
         case FromSettlement =>
              && o.request.policy == SettlementAtActivation && f.time == o.request.activateAt
              && o.request.intent.orderType.Limit? && o.request.intent.orderType.limitPrice == f.price
         case FromAuction(price) =>
              && o.request.policy == AuctionCross && f.price == price && o.request.intent.orderType.Limit?
              && (if f.side == Buy then price < o.request.intent.orderType.limitPrice else price > o.request.intent.orderType.limitPrice)
       }
  }

  ghost predicate FillOk(configs: Configs, orders: seq<Order>, f: Fill) {
    exists i :: 0 <= i < |orders| && Fills(configs, orders[i], f)
  }

  ghost predicate Fills(configs: Configs, o: Order, f: Fill) {
    && o.id == f.orderId && f.instrument == o.request.intent.instrument && f.side == o.request.intent.side
    && f.instrument in configs && FillObeys(configs[f.instrument], o, f) && f.time >= o.request.activateAt
  }

  ghost predicate Inv(configs: Configs, s: State) {
    && Distinct(s) && s.reported == s.fills
    && (forall i {:trigger OrderOk(configs, s.fills, s.orders[i])} :: 0 <= i < |s.orders| ==> OrderOk(configs, s.fills, s.orders[i]))
    && (forall i :: 0 <= i < |s.orders| ==> ClientOk(s, i))
    && (forall c :: IndexOk(s, c))
    && (forall k :: BookOk(configs, s, k))
    && (forall j {:trigger FillOk(configs, s.orders, s.fills[j])} :: 0 <= j < |s.fills| ==> FillOk(configs, s.orders, s.fills[j]))
  }

  // ------------------------------------------------------------- status graph

  /** The statuses an order may move to. */
  predicate Moves(a: Status, b: Status) {
    a == b || match a
      case Scheduled => b != PartiallyFilled && b != MatchAttempted
      case Active => b == PartiallyFilled || b == MatchAttempted || b == Filled || b == Expired || b == Cancelled
      case PartiallyFilled => b == Expired || b == Cancelled
      case MatchAttempted => b == Expired || b == Cancelled
      case _ => false
  }

  predicate Unfilled(status: Status) {
    status == Scheduled || status == Active
  }

  /** One operation's effect on one order: identity kept, status along the graph, and fills only on
      leaving the statuses that can never be entered again. */
  ghost predicate Climbs(a: Order, b: Order) {
    && a.id == b.id && a.request == b.request && a.sequence == b.sequence
    && Moves(a.status, b.status)
    && (a.filled != b.filled ==> a.filled == 0 && Unfilled(a.status) && !Unfilled(b.status))
  }

  ghost predicate AllClimb(s: State, t: State) {
    && |s.orders| <= |t.orders|
    && (forall i :: 0 <= i < |s.orders| ==> Climbs(s.orders[i], t.orders[i]))
    && (forall i :: |s.orders| <= i < |t.orders| ==> t.orders[i].status == Scheduled && t.orders[i].filled == 0)
  }

  function StatusRank(status: Status): nat {
    match status
    case Scheduled => 0
    case Active => 1
    case PartiallyFilled => 2
    case MatchAttempted => 2
    case _ => 3
  }

  /** Over several operations: identity kept, and any change of status goes up in rank. */
  ghost predicate Later(a: Order, b: Order) {
    && a.id == b.id && a.request == b.request && a.sequence == b.sequence
    && (a.status == b.status || StatusRank(a.status) < StatusRank(b.status))
    && (a.filled != b.filled ==> a.filled == 0 && Unfilled(a.status) && !Unfilled(b.status))
  }

  // --------------------------------------------------------- status changes

  /** `t` differs from `s` in statuses and trading states only. */
  ghost predicate OnlyStatuses(s: State, t: State) {
    && t == s.(orders := t.orders, trading := t.trading) && |t.orders| == |s.orders|
    && forall i :: 0 <= i < |s.orders| ==> t.orders[i] == s.orders[i].(status := t.orders[i].status)
  }

  lemma {:induction false} StatusChangeKeepsInv(configs: Configs, s: State, t: State)
    requires Inv(configs, s) && OnlyStatuses(s, t)
    requires forall i :: 0 <= i < |s.orders| ==>
      && Moves(s.orders[i].status, t.orders[i].status)
      && FilledFits(t.orders[i])
    ensures Inv(configs, t) && AllClimb(s, t)
  {
    forall i | 0 <= i < |t.orders| ensures OrderOk(configs, t.fills, t.orders[i]) && ClientOk(t, i) {
      assert OrderOk(configs, s.fills, s.orders[i]) && ClientOk(s, i);
    }
    forall c ensures IndexOk(t, c) {
      assert IndexOk(s, c);
      if c in t.clients {
        var i :| 0 <= i < |s.orders| && s.orders[i].id == s.clients[c] && s.orders[i].request.clientId == c;
        assert t.orders[i].id == t.clients[c] && t.orders[i].request.clientId == c;
      }
    }
    forall k ensures BookOk(configs, t, k) {
      assert BookOk(configs, s, k);
    }
    forall j | 0 <= j < |t.fills| ensures FillOk(configs, t.orders, t.fills[j]) {
      assert FillOk(configs, s.orders, s.fills[j]);
      var i :| 0 <= i < |s.orders| && Fills(configs, s.orders[i], s.fills[j]);
      assert Fills(configs, t.orders[i], t.fills[j]);
    }
  }

  // ------------------------------------------------------ sums over new fills

  /** The fills of a sweep, as they are reported: each with the running total. */
  function Report(o: Order, levels: seq<LevelFill>, cumulative: nat, at: i64, origin: Origin): seq<Fill> {
    if levels == [] then [] else
    var total := cumulative + levels[0].quantity.value;
    [Fill(o.id, o.request.intent.instrument, at, o.request.intent.side, levels[0].levelIndex, levels[0].price,
          levels[0].quantity.value, total, origin)]
    + Report(o, levels[1..], total, at, origin)
  }

  lemma {:induction false} FilledOfAppend(a: seq<Fill>, b: seq<Fill>, id: OrderId)
    ensures FilledOf(a + b, id) == FilledOf(a, id) + FilledOf(b, id)
  {
    if b == [] {
      assert a + b == a;
    } else {
      assert (a + b)[..|a + b| - 1] == a + b[..|b| - 1];
      FilledOfAppend(a, b[..|b| - 1], id);
    }
  }

  lemma {:induction false} LevelTakenAppend(a: seq<Fill>, b: seq<Fill>, from: nat, k: InstrumentId, side: OrderSide, level: nat)
    requires from <= |a|
    ensures LevelTaken(a + b, from, k, side, level) == LevelTaken(a, from, k, side, level) + LevelTaken(b, 0, k, side, level)
  {
    if b == [] {
      assert a + b == a;
    } else {
      assert (a + b)[..|a + b| - 1] == a + b[..|b| - 1];
      LevelTakenAppend(a, b[..|b| - 1], from, k, side, level);
    }
  }

  lemma {:induction false} ReportMeaning(o: Order, levels: seq<LevelFill>, cumulative: nat, at: i64, origin: Origin)
    requires origin.FromDepth?
    ensures var fills := Report(o, levels, cumulative, at, origin);
      && |fills| == |levels|
      && (forall j :: 0 <= j < |fills| ==>
            && fills[j].orderId == o.id && fills[j].instrument == o.request.intent.instrument
            && fills[j].side == o.request.intent.side && fills[j].time == at && fills[j].origin == origin
            && fills[j].price == levels[j].price && fills[j].level == levels[j].levelIndex && fills[j].quantity == levels[j].quantity.value)
  {
    if levels != [] {
      ReportMeaning(o, levels[1..], cumulative + levels[0].quantity.value, at, origin);
    }
  }

  lemma {:induction false} ReportSums(o: Order, levels: seq<LevelFill>, cumulative: nat, at: i64, origin: Origin, id: OrderId,
                                      k: InstrumentId, side: OrderSide, level: nat)
    requires origin.FromDepth?
    ensures var fills, intent := Report(o, levels, cumulative, at, origin), o.request.intent;
      && FilledOf(fills, id) == (if id == o.id then Depth.Filled(levels) else 0)
      && LevelTaken(fills, 0, k, side, level) == (if k == intent.instrument && side == intent.side then TakenFromLevel(levels, level) else 0)
  {
    if levels != [] {
      var total := cumulative + levels[0].quantity.value;
      var rest := Report(o, levels[1..], total, at, origin);
      var first := Report(o, levels, cumulative, at, origin)[0];
      ReportSums(o, levels[1..], total, at, origin, id, k, side, level);
      FilledOfAppend([first], rest, id);
      LevelTakenAppend([first], rest, 0, k, side, level);
      assert [first][..0] == [];
    }
  }

  lemma {:induction false} SweepObeys(levels: seq<BookLevel>, consumed: seq<nat>, index: nat, depth: nat, remaining: nat,
                                      unit: QuantityUnit, rule: Rule, done: seq<LevelFill>)
    requires |levels| <= |consumed| && IsU64(remaining)
    requires SweepFrom(levels, consumed, index, depth, remaining, unit, rule, done).Ok?
    requires forall f :: f in done ==> IsMarketable(f.price, rule) && 1 <= f.levelIndex <= depth
    ensures forall f :: f in SweepFrom(levels, consumed, index, depth, remaining, unit, rule, done).value ==>
      IsMarketable(f.price, rule) && 1 <= f.levelIndex <= depth
    decreases |levels| - index
  {
    if index < |levels| && index < depth && remaining > 0 && Reaches(levels[index], rule) {
      var value := Min(remaining, levels[index].displayed.value - consumed[index]);
      var filled := if value == 0 then [] else [LevelFill(index + 1, AdversePrice(levels[index].price, rule).value, Quantity(value, unit))];
      SweepObeys(levels, consumed, index + 1, depth, remaining - value, unit, rule, done + filled);
    }
  }

  // ------------------------------------------------------- operations that fill

  /** `t` is `s` after order `i` received the fills `added`. */
  ghost predicate FillsOrder(s: State, t: State, i: nat, added: seq<Fill>) {
    && i < |s.orders| == |t.orders|
    && t.orders == s.orders[i := s.orders[i].(filled := t.orders[i].filled, status := t.orders[i].status)]
    && t.fills == s.fills + added && t.reported == s.reported + added
    && t.clients == s.clients && t.trading == s.trading && t.nextSequence == s.nextSequence && t.published == s.published
    && forall j :: 0 <= j < |added| ==> added[j].orderId == s.orders[i].id
  }

  lemma {:induction false} OrderStaysOk(configs: Configs, s: State, t: State, i: nat, added: seq<Fill>, j: nat)
    requires Inv(configs, s) && FillsOrder(s, t, i, added) && j < |s.orders|
    requires FilledFits(t.orders[i]) && t.orders[i].filled == s.orders[i].filled + FilledOf(added, s.orders[i].id)
    ensures OrderOk(configs, t.fills, t.orders[j])
  {
    assert OrderOk(configs, s.fills, s.orders[j]);
    FilledOfAppend(s.fills, added, s.orders[j].id);
    if j != i {
      NoFills(added, s.orders[j].id);
    }
  }

  lemma {:induction false} NoFills(fills: seq<Fill>, id: OrderId)
    requires forall j :: 0 <= j < |fills| ==> fills[j].orderId != id
    ensures FilledOf(fills, id) == 0
  {
    if fills != [] {
      NoFills(fills[..|fills| - 1], id);
    }
  }

  lemma {:induction false} FilledOrdersKeepClients(configs: Configs, s: State, t: State, i: nat, added: seq<Fill>)
    requires Inv(configs, s) && FillsOrder(s, t, i, added)
    requires s.orders[i].status != Replaced
    ensures forall j :: 0 <= j < |t.orders| ==> ClientOk(t, j)
    ensures forall c :: IndexOk(t, c)
  {
    forall j | 0 <= j < |t.orders| ensures ClientOk(t, j) {
      assert ClientOk(s, j);
    }
    forall c ensures IndexOk(t, c) {
      assert IndexOk(s, c);
      if c in t.clients {
        var j :| 0 <= j < |s.orders| && s.orders[j].id == s.clients[c] && s.orders[j].request.clientId == c;
        assert t.orders[j].id == t.clients[c] && t.orders[j].request.clientId == c;
      }
    }
  }

  lemma {:induction false} FilledOrdersKeepFills(configs: Configs, s: State, t: State, i: nat, added: seq<Fill>)
    requires FillsOrder(s, t, i, added)
    requires forall j :: 0 <= j < |s.fills| ==> FillOk(configs, s.orders, s.fills[j])
    requires forall j :: 0 <= j < |added| ==> Fills(configs, s.orders[i], added[j])
    ensures forall j :: 0 <= j < |t.fills| ==> FillOk(configs, t.orders, t.fills[j])
  {
    forall j | 0 <= j < |t.fills| ensures FillOk(configs, t.orders, t.fills[j]) {
      var n: nat := i;
      if j < |s.fills| {
        assert FillOk(configs, s.orders, s.fills[j]);
        n :| 0 <= n < |s.orders| && Fills(configs, s.orders[n], s.fills[j]);
      }
      assert Fills(configs, t.orders[n], t.fills[j]);
    }
  }

  lemma {:induction false} FilledOrdersClimb(s: State, t: State, i: nat, added: seq<Fill>)
    requires Distinct(s) && FillsOrder(s, t, i, added)
    requires Climbs(s.orders[i], t.orders[i])
    ensures Distinct(t) && AllClimb(s, t)
  {
  }

  /** Everything but the books. */
  lemma {:induction false} FillingKeepsInv(configs: Configs, s: State, t: State, i: nat, added: seq<Fill>)
    requires Inv(configs, s) && FillsOrder(s, t, i, added)
    requires Unfilled(s.orders[i].status) && Moves(s.orders[i].status, t.orders[i].status) && !Unfilled(t.orders[i].status)
    requires t.orders[i].status != Replaced
    requires FilledFits(t.orders[i]) && t.orders[i].filled == FilledOf(added, s.orders[i].id)
    requires forall j :: 0 <= j < |added| ==> Fills(configs, s.orders[i], added[j])
    requires forall k :: BookOk(configs, t, k)
    ensures Inv(configs, t) && AllClimb(s, t)
  {
    assert s.orders[i].filled == 0 by {
      assert OrderOk(configs, s.fills, s.orders[i]);
    }
    forall j | 0 <= j < |s.orders| ensures OrderOk(configs, t.fills, t.orders[j]) {
      OrderStaysOk(configs, s, t, i, added, j);
    }
    FilledOrdersClimb(s, t, i, added);
    FilledOrdersKeepClients(configs, s, t, i, added);
    FilledOrdersKeepFills(configs, s, t, i, added);
  }

  lemma {:induction false} FillWholeKeepsInv(configs: Configs, s: State, i: nat, at: i64, price: int, origin: Origin)
    requires Inv(configs, s) && i < |s.orders| && Unfilled(s.orders[i].status) && at >= s.orders[i].request.activateAt
    requires !origin.FromDepth?
    requires s.orders[i].request.intent.instrument in configs
    requires FillObeys(configs[s.orders[i].request.intent.instrument], s.orders[i],
                       FillWhole(s, i, at, price, origin).fills[|s.fills|])
    ensures Inv(configs, FillWhole(s, i, at, price, origin)) && AllClimb(s, FillWhole(s, i, at, price, origin))
  {
    var t := FillWhole(s, i, at, price, origin);
    var added := [t.fills[|s.fills|]];
    assert added[..0] == [];
    forall k ensures BookOk(configs, t, k) {
      assert BookOk(configs, s, k);
      if k in s.books {
        forall side, level | 1 <= level <= BOOK_DEPTH
          ensures LevelTaken(t.fills, s.published[k], k, side, level) == LevelTaken(s.fills, s.published[k], k, side, level)
        {
          LevelTakenAppend(s.fills, added, s.published[k], k, side, level);
        }
      }
    }
    FillingKeepsInv(configs, s, t, i, added);
  }

  /** The sweep of a valid book as it is booked: the side stays valid with the reported fills counted. */
  lemma {:induction false} SweepBooks(configs: Configs, s: State, i: nat, requested: Quantity, sweep: Sweep, at: i64) returns (after: Counts)
    requires Inv(configs, s) && i < |s.orders|
    requires s.orders[i].request.intent.instrument in s.books && s.orders[i].request.intent.instrument in configs
    requires SweepFor(configs[s.orders[i].request.intent.instrument], s.books[s.orders[i].request.intent.instrument], s.orders[i], requested)
             == Ok(sweep)
    ensures var o := s.orders[i];
      var b := s.books[o.request.intent.instrument];
      && Consume(ConsumedOn(b, o.request.intent.side), sweep.fills) == Ok(after)
      && WithinDisplayed(SideLevels(b.book, o.request.intent.side), after) && (forall c :: c in after ==> IsU64(c))
      && sweep.filled == Depth.Filled(sweep.fills) <= requested.value
  {
    var o := s.orders[i];
    var k, side := o.request.intent.instrument, o.request.intent.side;
    assert BookOk(configs, s, k);
    var b, model := s.books[k], configs[k].model;
    var consumed, levels, rule := ConsumedOn(b, side), SideLevels(b.book, side), RuleOf(o, model);
    after := SweepConsumes(levels, consumed, model.depthLevels, requested.value, requested.unit, rule);
    StaysWithin(levels, consumed, after, model.depthLevels, requested.value, rule);
  }

  /** A published book that a sweep at `at` may use. */
  ghost predicate Usable(configs: Configs, s: State, k: InstrumentId, at: i64) {
    && k in configs && k in s.books && s.books[k].visibleAt <= at
    && 0 <= at - s.books[k].matchTime <= configs[k].model.maxStaleMs * 1000
  }

  lemma {:induction false} SweepFillsObey(configs: Configs, s: State, i: nat, requested: Quantity, sweep: Sweep, at: i64)
    requires Inv(configs, s) && i < |s.orders| && Usable(configs, s, s.orders[i].request.intent.instrument, at)
    requires (sweep.fills == [] || at >= s.orders[i].request.activateAt) && TakesDepth(s.orders[i], at)
    requires SweepFor(configs[s.orders[i].request.intent.instrument], s.books[s.orders[i].request.intent.instrument], s.orders[i], requested)
             == Ok(sweep)
    ensures var o := s.orders[i];
      var b := s.books[o.request.intent.instrument];
      forall f :: f in Report(o, sweep.fills, o.filled, at, FromDepth(b.matchTime, b.visibleAt)) ==> Fills(configs, o, f)
  {
    var o := s.orders[i];
    var k, side := o.request.intent.instrument, o.request.intent.side;
    assert BookOk(configs, s, k);
    var b, rules := s.books[k], configs[k];
    var consumed, levels, rule := ConsumedOn(b, side), SideLevels(b.book, side), RuleOf(o, rules.model);
    SweepObeys(levels, consumed, 0, rules.model.depthLevels, requested.value, requested.unit, rule, []);
    var added := Report(o, sweep.fills, o.filled, at, FromDepth(b.matchTime, b.visibleAt));
    ReportMeaning(o, sweep.fills, o.filled, at, FromDepth(b.matchTime, b.visibleAt));
    forall j | 0 <= j < |added| ensures Fills(configs, o, added[j]) {
      assert sweep.fills[j] in sweep.fills;
      assert Accepts(rules.policy, sweep.fills[j].price);
    }
  }

  /** `t` is `s` with the sweep booked for order `i`, and the order's status set. */
  ghost predicate Swept(s: State, i: nat, sweep: Sweep, at: i64, after: Counts, t: State) {
    && i < |s.orders| == |t.orders| && s.orders[i].request.intent.instrument in s.books
    && var o := s.orders[i];
       var k := o.request.intent.instrument;
       var b := s.books[k];
       && FillsOrder(s, t, i, Report(o, sweep.fills, o.filled, at, FromDepth(b.matchTime, b.visibleAt)))
       && t.books == s.books[k := WithConsumedOn(b, o.request.intent.side, after)]
       && t.orders[i].filled == o.filled + sweep.filled
  }

  lemma {:induction false} SweptSide(s: State, i: nat, sweep: Sweep, at: i64, after: Counts, t: State, from: nat, k: InstrumentId, side: OrderSide)
    requires Swept(s, i, sweep, at, after, t) && k in s.books && from <= |s.fills| && SideOk(s.fills, from, k, s.books[k], side)
    requires var o := s.orders[i];
      var b := s.books[o.request.intent.instrument];
      && Consume(ConsumedOn(b, o.request.intent.side), sweep.fills) == Ok(after)
      && WithinDisplayed(SideLevels(b.book, o.request.intent.side), after) && (forall c :: c in after ==> IsU64(c))
    ensures k in t.books && t.books[k].book == s.books[k].book && SideOk(t.fills, from, k, t.books[k], side)
  {
    var o := s.orders[i];
    var b := s.books[o.request.intent.instrument];
    var origin := FromDepth(b.matchTime, b.visibleAt);
    var added := Report(o, sweep.fills, o.filled, at, origin);
    forall level | 1 <= level <= BOOK_DEPTH
      ensures ConsumedOn(t.books[k], side)[level - 1] == LevelTaken(t.fills, from, k, side, level)
    {
      LevelTakenAppend(s.fills, added, from, k, side, level);
      ReportSums(o, sweep.fills, o.filled, at, origin, o.id, k, side, level);
      if k == o.request.intent.instrument && side == o.request.intent.side {
        ConsumeTakes(ConsumedOn(b, side), sweep.fills, level);
      }
    }
  }

  lemma {:induction false} SweptBooks(configs: Configs, s: State, i: nat, sweep: Sweep, at: i64, after: Counts, t: State, k: InstrumentId)
    requires Swept(s, i, sweep, at, after, t) && BookOk(configs, s, k)
    requires var o := s.orders[i];
      var b := s.books[o.request.intent.instrument];
      && Consume(ConsumedOn(b, o.request.intent.side), sweep.fills) == Ok(after)
      && WithinDisplayed(SideLevels(b.book, o.request.intent.side), after) && (forall c :: c in after ==> IsU64(c))
    ensures BookOk(configs, t, k)
  {
    if k in s.books {
      SweptSide(s, i, sweep, at, after, t, s.published[k], k, Buy);
      SweptSide(s, i, sweep, at, after, t, s.published[k], k, Sell);
    }
  }

  lemma {:induction false} ConsumeFirst(consumed: Counts, levels: seq<LevelFill>)
    requires levels != [] && Consume(consumed, levels).Ok?
    ensures var one := Consume(consumed, [levels[0]]);
      one.Ok? && Consume(one.value, levels[1..]) == Consume(consumed, levels)
  {
    assert [levels[0]][1..] == [];
  }

  /** All of a sweep's fills booked, when its side's consumption becomes `after`. */
  function Booked(s: State, i: nat, levels: seq<LevelFill>, cumulative: nat, at: i64, after: Counts): State
    requires i < |s.orders| && s.orders[i].request.intent.instrument in s.books
  {
    var o := s.orders[i];
    var k := o.request.intent.instrument;
    var b := s.books[k];
    s.(books := s.books[k := WithConsumedOn(b, o.request.intent.side, after)],
       fills := s.fills + Report(o, levels, cumulative, at, FromDepth(b.matchTime, b.visibleAt)),
       reported := s.reported + Report(o, levels, cumulative, at, FromDepth(b.matchTime, b.visibleAt)),
       orders := s.orders[i := o.(filled := cumulative + Depth.Filled(levels))])
  }

  lemma {:induction false} BookedOne(s: State, i: nat, levels: seq<LevelFill>, cumulative: nat, at: i64, one: Counts, after: Counts)
    requires i < |s.orders| && s.orders[i].request.intent.instrument in s.books
    requires levels != [] && at >= s.orders[i].request.activateAt
    requires Consume(ConsumedOn(s.books[s.orders[i].request.intent.instrument], s.orders[i].request.intent.side), [levels[0]]) == Ok(one)
    ensures var total := cumulative + levels[0].quantity.value;
      var t := BookOne(s, i, levels[0], total, at);
      && t.result.Ok? && t.state.orders == s.orders && s.orders[i].request.intent.instrument in t.state.books
      && ConsumedOn(t.state.books[s.orders[i].request.intent.instrument], s.orders[i].request.intent.side) == one
      && Booked(t.state, i, levels[1..], total, at, after) == Booked(s, i, levels, cumulative, at, after)
  {
    var o := s.orders[i];
    var b := s.books[o.request.intent.instrument];
    var total := cumulative + levels[0].quantity.value;
    var t := BookOne(s, i, levels[0], total, at).state;
    assert Report(o, levels, cumulative, at, FromDepth(b.matchTime, b.visibleAt))
      == [t.fills[|s.fills|]] + Report(o, levels[1..], total, at, FromDepth(b.matchTime, b.visibleAt));
  }

  /** Booking fills one by one is booking them all. */
  lemma {:induction false} BookFillsMeaning(s: State, i: nat, levels: seq<LevelFill>, cumulative: nat, at: i64, after: Counts)
    requires i < |s.orders| && s.orders[i].request.intent.instrument in s.books
    requires levels == [] || at >= s.orders[i].request.activateAt
    requires Consume(ConsumedOn(s.books[s.orders[i].request.intent.instrument], s.orders[i].request.intent.side), levels) == Ok(after)
    ensures BookFills(s, i, levels, cumulative, at) == Outcome(Booked(s, i, levels, cumulative, at, after), Ok(()))
    decreases levels
  {
    var o := s.orders[i];
    var b := s.books[o.request.intent.instrument];
    if levels == [] {
      assert s.books[o.request.intent.instrument := b] == s.books;
      assert s.fills + [] == s.fills && s.reported + [] == s.reported;
    } else {
      var consumed := ConsumedOn(b, o.request.intent.side);
      ConsumeFirst(consumed, levels);
      BookedOne(s, i, levels, cumulative, at, Consume(consumed, [levels[0]]).value, after);
      var total := cumulative + levels[0].quantity.value;
      BookFillsMeaning(BookOne(s, i, levels[0], total, at).state, i, levels[1..], total, at, after);
    }
  }

  /** Booking a sweep, and the status that goes with it, keeps the invariant. */
  lemma {:induction false} SweepKeepsInv(configs: Configs, s: State, i: nat, requested: Quantity, sweep: Sweep, at: i64, status: Status)
    requires Inv(configs, s) && i < |s.orders| && Usable(configs, s, s.orders[i].request.intent.instrument, at)
    requires Unfilled(s.orders[i].status) && (sweep.fills == [] || at >= s.orders[i].request.activateAt) && TakesDepth(s.orders[i], at)
    requires SweepFor(configs[s.orders[i].request.intent.instrument], s.books[s.orders[i].request.intent.instrument], s.orders[i], requested)
             == Ok(sweep)
    requires Moves(s.orders[i].status, status) && !Unfilled(status) && status != Replaced
    requires FilledFits(s.orders[i].(filled := sweep.filled, status := status))
    ensures var booked := BookFills(s, i, sweep.fills, 0, at);
      && booked.result.Ok? && booked.state.orders[i] == s.orders[i].(filled := sweep.filled)
      && Inv(configs, WithStatus(booked.state, i, status)) && AllClimb(s, WithStatus(booked.state, i, status))
  {
    var o := s.orders[i];
    assert OrderOk(configs, s.fills, o);
    var k, side := o.request.intent.instrument, o.request.intent.side;
    var b := s.books[k];
    var after := SweepBooks(configs, s, i, requested, sweep, at);
    var origin := FromDepth(b.matchTime, b.visibleAt);
    BookFillsMeaning(s, i, sweep.fills, 0, at, after);
    var t := WithStatus(BookFills(s, i, sweep.fills, 0, at).state, i, status);
    ReportMeaning(o, sweep.fills, o.filled, at, origin);
    ReportSums(o, sweep.fills, o.filled, at, origin, o.id, k, side, 1);
    assert Swept(s, i, sweep, at, after, t);
    forall m ensures BookOk(configs, t, m) {
      assert BookOk(configs, s, m);
      SweptBooks(configs, s, i, sweep, at, after, t, m);
    }
    SweepFillsObey(configs, s, i, requested, sweep, at);
    FillingKeepsInv(configs, s, t, i, Report(o, sweep.fills, o.filled, at, origin));
  }
}
