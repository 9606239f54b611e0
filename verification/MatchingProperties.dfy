/** Time priority, displayed quantity and no look-ahead of the event-driven simulator, over whole runs. */
module MatchingProperties {
  import opened Wrappers
  import opened MachineIntegers
  import opened MarketTypes
  import opened Trading
  import opened MatchingModel

  // ---------------------------------------------------------------- invariant

  function FilledOf(fills: seq<FillRecord>, id: OrderId): nat {
    if fills == [] then 0
    else FilledOf(fills[..|fills| - 1], id) + (if fills[|fills| - 1].orderId == id then fills[|fills| - 1].quantity.value else 0)
  }

  predicate FilledFits(o: Order) {
    match o.status
    case Pending => o.filled == 0
    case PartiallyFilled => 0 < o.filled < o.intent.quantity.value
    case Filled => o.filled == o.intent.quantity.value
    case Cancelled => o.filled < o.intent.quantity.value
  }

  ghost predicate OrderOk(setup: Setup, fills: seq<FillRecord>, o: Order) {
    && o.intent.instrument in setup.universe && o.intent.quantity.unit == setup.unit
    && o.eligibleAt == o.originTime + 1000 * (setup.model.marketDataLatencyMs + setup.model.orderLatencyMs)
    && FilledFits(o) && o.filled == FilledOf(fills, o.id)
  }

  ghost predicate InOrder(s: State) {
    && (forall i, j :: 0 <= i < j < |s.orders| ==> s.orders[i].id != s.orders[j].id)
    && (forall i, j :: 0 <= i < j < |s.orders| ==> s.orders[i].sequence < s.orders[j].sequence)
    && (forall i :: 0 <= i < |s.orders| ==> s.orders[i].sequence < s.nextSequence)
  }

  /** A fill comes after its order by ordinal and by both latencies, and obeys the limit and the policy. */
  ghost predicate Fills(setup: Setup, o: Order, f: FillRecord) {
    && f.orderId == o.id && f.side == o.intent.side && f.quantity.unit == o.intent.quantity.unit
    && f.trigger.MarketEvent? && f.trigger.runEventOrdinal > o.originOrdinal
    && f.matchTime >= o.originTime + 1000 * (setup.model.marketDataLatencyMs + setup.model.orderLatencyMs)
    && LimitTouched(o.intent, f.price) && Accepts(setup.policy, f.price)
  }

  ghost predicate FillOk(setup: Setup, orders: seq<Order>, f: FillRecord) {
    exists i :: 0 <= i < |orders| && Fills(setup, orders[i], f)
  }

  ghost predicate Inv(setup: Setup, s: State) {
    && InOrder(s)
    && (forall i {:trigger OrderOk(setup, s.fills, s.orders[i])} :: 0 <= i < |s.orders| ==> OrderOk(setup, s.fills, s.orders[i]))
    && (forall j {:trigger FillOk(setup, s.orders, s.fills[j])} :: 0 <= j < |s.fills| ==> FillOk(setup, s.orders, s.fills[j]))
  }

  /** An order keeps its identity, its filled quantity only grows, and a finished order stays as it is. */
  ghost predicate Later(a: Order, b: Order) {
    && b == a.(filled := b.filled, status := b.status)
    && a.filled <= b.filled
    && (!Working(a) ==> b == a)
  }

  ghost predicate AllLater(s: State, t: State) {
    |s.orders| <= |t.orders| && forall i :: 0 <= i < |s.orders| ==> Later(s.orders[i], t.orders[i])
  }

  ghost predicate Sound(setup: Setup, s: State, t: State) {
    Inv(setup, t) && AllLater(s, t)
  }

  // -------------------------------------------------------------- single steps

  lemma {:induction false} FillingKeepsInv(setup: Setup, s: State, i: nat, tick: Tick, shown: Option<Shown>, x: Execution)
    requires Inv(setup, s) && i < |s.orders| && Execute(setup, s.orders[i], tick, shown) == Ok(Some(x))
    ensures IsU64(x.quantity) && x.quantity > 0 && Sound(setup, s, Filling(s, i, tick, x))
  {
    assert OrderOk(setup, s.fills, s.orders[i]);
    var t := Filling(s, i, tick, x);
    var f := t.fills[|s.fills|];
    assert t.fills[..|t.fills| - 1] == s.fills;
    forall j | 0 <= j < |t.orders| ensures OrderOk(setup, t.fills, t.orders[j]) {
      assert OrderOk(setup, s.fills, s.orders[j]);
    }
    FillAppendedOk(setup, s, t, i, f);
  }

  lemma {:induction false} FillAppendedOk(setup: Setup, s: State, t: State, i: nat, f: FillRecord)
    requires i < |s.orders| == |t.orders| && t.fills == s.fills + [f] && AllLater(s, t) && Fills(setup, s.orders[i], f)
    requires forall j :: 0 <= j < |s.fills| ==> FillOk(setup, s.orders, s.fills[j])
    ensures forall j :: 0 <= j < |t.fills| ==> FillOk(setup, t.orders, t.fills[j])
  {
    forall j | 0 <= j < |t.fills| ensures FillOk(setup, t.orders, t.fills[j]) {
      var n: nat := i;
      if j < |s.fills| {
        assert FillOk(setup, s.orders, s.fills[j]);
        n :| 0 <= n < |s.orders| && Fills(setup, s.orders[n], s.fills[j]);
      }
      assert Later(s.orders[n], t.orders[n]);
      assert Fills(setup, t.orders[n], t.fills[j]);
    }
  }

  /** Fills stay accounted for while their orders only move on. */
  lemma {:induction false} FillsStayOk(setup: Setup, s: State, t: State)
    requires AllLater(s, t) && t.fills == s.fills && forall j :: 0 <= j < |s.fills| ==> FillOk(setup, s.orders, s.fills[j])
    ensures forall j :: 0 <= j < |t.fills| ==> FillOk(setup, t.orders, t.fills[j])
  {
    forall j | 0 <= j < |t.fills| ensures FillOk(setup, t.orders, t.fills[j]) {
      assert FillOk(setup, s.orders, s.fills[j]);
      var n :| 0 <= n < |s.orders| && Fills(setup, s.orders[n], s.fills[j]);
      assert Later(s.orders[n], t.orders[n]);
      assert Fills(setup, t.orders[n], t.fills[j]);
    }
  }

  lemma {:induction false} CancelKeepsInv(setup: Setup, s: State, which: Order -> bool)
    requires Inv(setup, s)
    ensures Sound(setup, s, CancelWhere(s, which))
  {
    var t := CancelWhere(s, which);
    forall i | 0 <= i < |t.orders| ensures OrderOk(setup, t.fills, t.orders[i]) && Later(s.orders[i], t.orders[i]) {
      assert OrderOk(setup, s.fills, s.orders[i]);
    }
    FillsStayOk(setup, s, t);
  }

  ghost predicate FreshId(s: State, id: OrderId) {
    forall i :: 0 <= i < |s.orders| ==> s.orders[i].id != id
  }

  lemma {:induction false} NoFills(fills: seq<FillRecord>, id: OrderId)
    requires forall j :: 0 <= j < |fills| ==> fills[j].orderId != id
    ensures FilledOf(fills, id) == 0
  {
    if fills != [] {
      NoFills(fills[..|fills| - 1], id);
    }
  }

  lemma {:induction false} NewIdHasNoFills(setup: Setup, s: State, id: OrderId)
    requires FreshId(s, id) && forall j :: 0 <= j < |s.fills| ==> FillOk(setup, s.orders, s.fills[j])
    ensures FilledOf(s.fills, id) == 0
  {
    forall j | 0 <= j < |s.fills| ensures s.fills[j].orderId != id {
      assert FillOk(setup, s.orders, s.fills[j]);
    }
    NoFills(s.fills, id);
  }

  /** One more order, new and last. */
  lemma {:induction false} AppendKeepsInv(setup: Setup, s: State, o: Order, t: State)
    requires Inv(setup, s) && FreshId(s, o.id) && OrderOk(setup, [], o) && o.sequence == s.nextSequence < t.nextSequence
    requires t.orders == s.orders + [o] && t.fills == s.fills
    ensures Sound(setup, s, t)
  {
    NewIdHasNoFills(setup, s, o.id);
    forall i | 0 <= i < |t.orders| ensures OrderOk(setup, t.fills, t.orders[i]) {
      if i < |s.orders| {
        assert OrderOk(setup, s.fills, s.orders[i]);
      }
    }
    FillsStayOk(setup, s, t);
  }

  lemma {:induction false} SubmitKeepsInv(setup: Setup, s: State, origin: Origin, id: OrderId, intent: Intent)
    requires Inv(setup, s) && FreshId(s, id)
    ensures Sound(setup, s, Submit(setup, s, origin, id, intent).state)
  {
    var t := Submit(setup, s, origin, id, intent).state;
    if t != s {
      AppendKeepsInv(setup, s, t.orders[|s.orders|], t);
    }
  }

  lemma {:induction false} MatchKeepsInv(setup: Setup, s: State, tick: Tick, a: Available, i: nat)
    requires Inv(setup, s)
    ensures Sound(setup, s, MatchFrom(setup, s, tick, a, i).state)
    decreases |s.orders| - i
  {
    if i < |s.orders| {
      var side := s.orders[i].intent.side;
      match Execute(setup, s.orders[i], tick, For(a, side))
      case Err(_) =>
      case Ok(None) => MatchKeepsInv(setup, s, tick, a, i + 1);
      case Ok(Some(x)) =>
        FillingKeepsInv(setup, s, i, tick, For(a, side), x);
        var t := Filling(s, i, tick, x);
        MatchKeepsInv(setup, t, tick, LeftOver(setup, a, side, x), i + 1);
        LaterTransitive(s, t, MatchFrom(setup, t, tick, LeftOver(setup, a, side, x), i + 1).state);
    }
  }

  lemma {:induction false} LaterTransitive(s: State, t: State, u: State)
    requires AllLater(s, t) && AllLater(t, u)
    ensures AllLater(s, u)
  {
    forall i | 0 <= i < |s.orders| ensures Later(s.orders[i], u.orders[i]) {
      assert Later(s.orders[i], t.orders[i]) && Later(t.orders[i], u.orders[i]);
    }
  }

  // --------------------------------------------------------------------- runs

  datatype Op = SubmitOp(origin: Origin, id: OrderId, intent: Intent) | EvaluateOp(tick: Tick) | SegmentOp(segment: string) | EndOp

  function Step(setup: Setup, s: State, op: Op): State {
    match op
    case SubmitOp(origin, id, intent) => Submit(setup, s, origin, id, intent).state
    case EvaluateOp(tick) => Evaluate(setup, s, tick).state
    case SegmentOp(segment) => CancelSegment(s, segment)
    case EndOp => CancelEndOfRun(s)
  }

  function Run(setup: Setup, s: State, ops: seq<Op>): State
    decreases ops
  {
    if ops == [] then s else Run(setup, Step(setup, s, ops[0]), ops[1..])
  }

  /** Order ids are new when they are given. */
  ghost predicate FreshIds(setup: Setup, s: State, ops: seq<Op>)
    decreases ops
  {
    ops == [] || ((ops[0].SubmitOp? ==> FreshId(s, ops[0].id)) && FreshIds(setup, Step(setup, s, ops[0]), ops[1..]))
  }

  lemma {:induction false} StepKeepsInv(setup: Setup, s: State, op: Op)
    requires Inv(setup, s) && (op.SubmitOp? ==> FreshId(s, op.id))
    ensures Sound(setup, s, Step(setup, s, op))
  {
    match op
    case SubmitOp(origin, id, intent) => SubmitKeepsInv(setup, s, origin, id, intent);
    case EvaluateOp(tick) =>
      CancelKeepsInv(setup, s, (o: Order) => Interrupted(o, tick.event.instrument));
      MatchKeepsInv(setup, s, tick, Available(Offered(setup, tick.event, Buy), Offered(setup, tick.event, Sell)), 0);
    case SegmentOp(segment) => CancelKeepsInv(setup, s, (o: Order) => o.segment == segment);
    case EndOp => CancelKeepsInv(setup, s, (o: Order) => true);
  }

  /** Over any run: every order's filled quantity is the sum of its fills and at most its request, no
      fill looks ahead, and a filled or cancelled order stays as it is. */
  lemma {:induction false} RunKeepsInv(setup: Setup, s: State, ops: seq<Op>)
    requires Inv(setup, s) && FreshIds(setup, s, ops)
    ensures Sound(setup, s, Run(setup, s, ops))
    decreases ops
  {
    if ops != [] {
      var t := Step(setup, s, ops[0]);
      StepKeepsInv(setup, s, ops[0]);
      RunKeepsInv(setup, t, ops[1..]);
      LaterTransitive(s, t, Run(setup, t, ops[1..]));
    }
  }

  // ------------------------------------------------------------ time priority

  /** Orders before `i` are as they were. */
  ghost predicate KeepsBefore(s: State, t: State, i: nat) {
    |t.orders| == |s.orders| && forall j :: 0 <= j < i && j < |s.orders| ==> t.orders[j] == s.orders[j]
  }

  lemma {:induction false} MatchKeepsEarlier(setup: Setup, s: State, tick: Tick, a: Available, i: nat)
    requires Inv(setup, s)
    ensures KeepsBefore(s, MatchFrom(setup, s, tick, a, i).state, i)
    decreases |s.orders| - i
  {
    if i < |s.orders| {
      var side := s.orders[i].intent.side;
      match Execute(setup, s.orders[i], tick, For(a, side))
      case Err(_) =>
      case Ok(None) => MatchKeepsEarlier(setup, s, tick, a, i + 1);
      case Ok(Some(x)) =>
        FillingKeepsInv(setup, s, i, tick, For(a, side), x);
        MatchKeepsEarlier(setup, Filling(s, i, tick, x), tick, LeftOver(setup, a, side, x), i + 1);
    }
  }

  /** The order would trade at what is shown: it is eligible, and its limit admits the slipped price. */
  predicate Admits(setup: Setup, o: Order, tick: Tick, shown: Shown) {
    && Eligible(o, tick) && shown.quantity.unit == o.intent.quantity.unit && LimitTouched(o.intent, shown.price)
    && Slipped(setup, shown.price, o.intent.side).Ok? && LimitTouched(o.intent, Slipped(setup, shown.price, o.intent.side).value)
  }

  /** When nothing is left for a side, none of its orders is filled. */
  lemma {:induction false} NothingLeft(setup: Setup, s: State, tick: Tick, a: Available, i: nat, j: nat)
    requires Inv(setup, s) && i <= j < |s.orders| && For(a, s.orders[j].intent.side) == None
    ensures j < |MatchFrom(setup, s, tick, a, i).state.orders| && MatchFrom(setup, s, tick, a, i).state.orders[j] == s.orders[j]
    decreases |s.orders| - i
  {
    MatchKeepsEarlier(setup, s, tick, a, i);
    var side := s.orders[i].intent.side;
    match Execute(setup, s.orders[i], tick, For(a, side))
    case Err(_) =>
    case Ok(None) =>
      if i < j {
        NothingLeft(setup, s, tick, a, i + 1, j);
      } else {
        MatchKeepsEarlier(setup, s, tick, a, i + 1);
      }
    case Ok(Some(x)) =>
      FillingKeepsInv(setup, s, i, tick, For(a, side), x);
      NothingLeft(setup, Filling(s, i, tick, x), tick, LeftOver(setup, a, side, x), i + 1, j);
  }

  /** An order that admits what is shown is filled completely, or takes all that is left. */
  lemma {:induction false} CompleteOrExhausted(setup: Setup, o: Order, tick: Tick, a: Available)
    requires FilledFits(o) && For(a, o.intent.side).Some? && Admits(setup, o, tick, For(a, o.intent.side).value)
    ensures var r := Execute(setup, o, tick, For(a, o.intent.side));
      && r.Ok? && r.value.Some?
      && (r.value.value.quantity == Remaining(o) || For(LeftOver(setup, a, o.intent.side, r.value.value), o.intent.side) == None)
  {
  }

  lemma {:induction false} MatchPriority(setup: Setup, s: State, tick: Tick, a: Available, p: nat, i: nat, j: nat)
    requires Inv(setup, s) && p <= i < j < |s.orders| && s.orders[i].intent.side == s.orders[j].intent.side
    requires For(a, s.orders[i].intent.side).Some? && Admits(setup, s.orders[i], tick, For(a, s.orders[i].intent.side).value)
    ensures var t := MatchFrom(setup, s, tick, a, p).state;
      |t.orders| == |s.orders| && (t.orders[j] != s.orders[j] ==> t.orders[i].status == Filled)
    decreases |s.orders| - p
  {
    MatchKeepsEarlier(setup, s, tick, a, p);
    assert OrderOk(setup, s.fills, s.orders[i]);
    var side := s.orders[p].intent.side;
    match Execute(setup, s.orders[p], tick, For(a, side))
    case Err(_) =>
    case Ok(None) =>
      if p == i {
        CompleteOrExhausted(setup, s.orders[i], tick, a);
      } else {
        MatchPriority(setup, s, tick, a, p + 1, i, j);
      }
    case Ok(Some(x)) =>
      FillingKeepsInv(setup, s, p, tick, For(a, side), x);
      var u, b := Filling(s, p, tick, x), LeftOver(setup, a, side, x);
      if For(b, s.orders[i].intent.side) == None {
        AfterExhausted(setup, s, tick, a, x, p, i, j);
      } else if p == i {
        CompleteOrExhausted(setup, s.orders[i], tick, a);
        MatchKeepsEarlier(setup, u, tick, b, p + 1);
      } else {
        MatchPriority(setup, u, tick, b, p + 1, i, j);
      }
  }

  lemma {:induction false} AfterExhausted(setup: Setup, s: State, tick: Tick, a: Available, x: Execution, p: nat, i: nat, j: nat)
    requires Inv(setup, s) && p <= i < j < |s.orders| && s.orders[i].intent.side == s.orders[j].intent.side
    requires Execute(setup, s.orders[p], tick, For(a, s.orders[p].intent.side)) == Ok(Some(x))
    requires IsU64(x.quantity) && x.quantity > 0 && Inv(setup, Filling(s, p, tick, x))
    requires For(LeftOver(setup, a, s.orders[p].intent.side, x), s.orders[j].intent.side) == None
    ensures var t := MatchFrom(setup, s, tick, a, p).state; j < |t.orders| && t.orders[j] == s.orders[j]
  {
    var u, b := Filling(s, p, tick, x), LeftOver(setup, a, s.orders[p].intent.side, x);
    NothingLeft(setup, u, tick, b, p + 1, j);
  }

  /** Time priority: when an order is filled, every order accepted before it on its side that admits
      the shown price is filled completely. */
  lemma {:induction false} TimePriority(setup: Setup, ops: seq<Op>, tick: Tick, i: nat, j: nat)
    requires FreshIds(setup, Initial, ops)
    requires i < |Run(setup, Initial, ops).orders| && j < |Run(setup, Initial, ops).orders|
    requires var orders := Run(setup, Initial, ops).orders;
      orders[i].sequence < orders[j].sequence && orders[i].intent.side == orders[j].intent.side
    requires var o := Run(setup, Initial, ops).orders[i];
      Offered(setup, tick.event, o.intent.side).Some? && Admits(setup, o, tick, Offered(setup, tick.event, o.intent.side).value)
    ensures var s := Run(setup, Initial, ops);
      var t := Evaluate(setup, s, tick).state;
      |t.orders| == |s.orders| && (t.orders[j].filled != s.orders[j].filled ==> t.orders[i].status == Filled)
  {
    RunKeepsInv(setup, Initial, ops);
    var s := Run(setup, Initial, ops);
    assert i < j;
    MatchPriority(setup, s, tick, Available(Offered(setup, tick.event, Buy), Offered(setup, tick.event, Sell)), 0, i, j);
  }

  // -------------------------------------------------------- displayed quantity

  function SideFilled(fills: seq<FillRecord>, from: nat, side: OrderSide): nat {
    if |fills| <= from then 0
    else SideFilled(fills[..|fills| - 1], from, side) + (if fills[|fills| - 1].side == side then fills[|fills| - 1].quantity.value else 0)
  }

  function LeftFor(a: Available, side: OrderSide): nat {
    match For(a, side)
    case None => 0
    case Some(shown) => shown.quantity.value
  }

  /** What has been filled and what is left never exceed what was shown. */
  lemma {:induction false} MatchWithinShown(setup: Setup, s: State, tick: Tick, a: Available, i: nat, from: nat, side: OrderSide)
    requires Inv(setup, s) && setup.model.quantity == Displayed && from <= |s.fills|
    ensures SideFilled(MatchFrom(setup, s, tick, a, i).state.fills, from, side) <= SideFilled(s.fills, from, side) + LeftFor(a, side)
    decreases |s.orders| - i
  {
    if i < |s.orders| {
      var own := s.orders[i].intent.side;
      match Execute(setup, s.orders[i], tick, For(a, own))
      case Err(_) =>
      case Ok(None) => MatchWithinShown(setup, s, tick, a, i + 1, from, side);
      case Ok(Some(x)) =>
        FillingKeepsInv(setup, s, i, tick, For(a, own), x);
        var t := Filling(s, i, tick, x);
        assert t.fills[..|t.fills| - 1] == s.fills;
        MatchWithinShown(setup, t, tick, LeftOver(setup, a, own, x), i + 1, from, side);
    }
  }

  /** One event fills no more of a side than it shows to that side. */
  lemma {:induction false} FillsWithinEvidence(setup: Setup, ops: seq<Op>, tick: Tick, side: OrderSide)
    requires FreshIds(setup, Initial, ops) && setup.model.quantity == Displayed
    ensures var s := Run(setup, Initial, ops);
      SideFilled(Evaluate(setup, s, tick).state.fills, |s.fills|, side)
      <= (match Evidence(tick.event, setup.model.evidence, side) case None => 0 case Some(shown) => shown.quantity.value)
  {
    RunKeepsInv(setup, Initial, ops);
    var s := Run(setup, Initial, ops);
    MatchWithinShown(setup, s, tick, Available(Offered(setup, tick.event, Buy), Offered(setup, tick.event, Sell)), 0, |s.fills|, side);
  }

  /** No look-ahead: every fill of a run comes after the event its order answers, and no sooner than
      both latencies allow. */
  lemma {:induction false} NoLookAhead(setup: Setup, ops: seq<Op>, j: nat)
    requires FreshIds(setup, Initial, ops) && j < |Run(setup, Initial, ops).fills|
    ensures var s := Run(setup, Initial, ops);
      exists i :: 0 <= i < |s.orders| && s.orders[i].id == s.fills[j].orderId
        && s.fills[j].trigger.MarketEvent? && s.fills[j].trigger.runEventOrdinal > s.orders[i].originOrdinal
        && s.fills[j].matchTime >= s.orders[i].originTime + 1000 * (setup.model.marketDataLatencyMs + setup.model.orderLatencyMs)
  {
    RunKeepsInv(setup, Initial, ops);
    var s := Run(setup, Initial, ops);
    assert FillOk(setup, s.orders, s.fills[j]);
    var i :| 0 <= i < |s.orders| && Fills(setup, s.orders[i], s.fills[j]);
  }

  // ------------------------------------------------------- failing evaluations

  /** A price that slippage takes out of range or where the price policy does not let it. */
  predicate SlipsAway(setup: Setup, price: int, side: OrderSide) {
    var slipped := if side == Buy then price + setup.model.delta else price - setup.model.delta;
    setup.model.delta < 0 || !IsI128(slipped) || !Accepts(setup.policy, slipped)
  }

  /** Order `j` may be matched, is shown a price in its unit that touches its limit, and that price slips away. */
  predicate Breaks(setup: Setup, s: State, tick: Tick, a: Available, j: nat)
    requires j < |s.orders|
  {
    var o := s.orders[j];
    var shown := For(a, o.intent.side);
    && Eligible(o, tick) && shown.Some? && shown.value.quantity.unit == o.intent.quantity.unit
    && LimitTouched(o.intent, shown.value.price) && SlipsAway(setup, shown.value.price, o.intent.side)
  }

  /** Matching fails exactly when some order it would touch has its price slip away, whatever has been filled before. */
  lemma {:induction false} MatchFailsExactly(setup: Setup, s: State, tick: Tick, a: Available, i: nat)
    requires Inv(setup, s)
    ensures MatchFrom(setup, s, tick, a, i).result.Err? <==> exists j :: i <= j < |s.orders| && Breaks(setup, s, tick, a, j)
    decreases |s.orders| - i
  {
    if i < |s.orders| {
      var side := s.orders[i].intent.side;
      match Execute(setup, s.orders[i], tick, For(a, side))
      case Err(_) => assert Breaks(setup, s, tick, a, i);
      case Ok(None) =>
        MatchFailsExactly(setup, s, tick, a, i + 1);
        assert !Breaks(setup, s, tick, a, i);
      case Ok(Some(x)) =>
        FillingKeepsInv(setup, s, i, tick, For(a, side), x);
        var t, b := Filling(s, i, tick, x), LeftOver(setup, a, side, x);
        MatchFailsExactly(setup, t, tick, b, i + 1);
        assert !Breaks(setup, s, tick, a, i);
        forall j | i < j < |s.orders| ensures Breaks(setup, s, tick, a, j) == Breaks(setup, t, tick, b, j) {
          assert t.orders[j] == s.orders[j];
        }
    }
  }

  lemma {:induction false} EvaluateFailsExactly(setup: Setup, ops: seq<Op>, tick: Tick)
    requires FreshIds(setup, Initial, ops)
    ensures var s := Run(setup, Initial, ops);
      Evaluate(setup, s, tick).result.Err? <==>
        && !tick.volatilityInterruption && tick.matching.Enabled? && tick.entry != EntryBlocked && tick.entry != EntryUnknown
        && exists j :: 0 <= j < |s.orders|
                       && Breaks(setup, s, tick, Available(Offered(setup, tick.event, Buy), Offered(setup, tick.event, Sell)), j)
  {
    RunKeepsInv(setup, Initial, ops);
    MatchFailsExactly(setup, Run(setup, Initial, ops), tick,
                      Available(Offered(setup, tick.event, Buy), Offered(setup, tick.event, Sell)), 0);
  }

  /** An evaluation that fails may have filled orders: here a buy, before a sell whose slipped price is
      not positive. */
  lemma {:induction false} FailureKeepsEarlierFills(instrument: InstrumentId)
    ensures var setup := Setup({instrument}, Share, FillModel(TradePrint, Displayed, 2, 0, 0), PositiveOnly);
      var one := Quantity(1, Share);
      var ops := [SubmitOp(Origin(0, 0, EntryAllowed, ""), "buy", Intent(instrument, Buy, one, Market)),
                  SubmitOp(Origin(0, 0, EntryAllowed, ""), "sell", Intent(instrument, Sell, one, Market))];
      var tick := Tick(Event(instrument, 1, TradeBatch([Trade(1, one)])), 1, false, Enabled(ContinuousMatching), EntryAllowed);
      var r := Evaluate(setup, Run(setup, Initial, ops), tick);
      FreshIds(setup, Initial, ops) && r.result == Err(InvalidSlippage) && |r.state.fills| == 1
  {
    var setup := Setup({instrument}, Share, FillModel(TradePrint, Displayed, 2, 0, 0), PositiveOnly);
    var one := Quantity(1, Share);
    var buy := SubmitOp(Origin(0, 0, EntryAllowed, ""), "buy", Intent(instrument, Buy, one, Market));
    var sell := SubmitOp(Origin(0, 0, EntryAllowed, ""), "sell", Intent(instrument, Sell, one, Market));
    var tick := Tick(Event(instrument, 1, TradeBatch([Trade(1, one)])), 1, false, Enabled(ContinuousMatching), EntryAllowed);
    var first := Order("buy", buy.intent, 0, 0, 0, "", 1, 0, Pending);
    var second := Order("sell", sell.intent, 0, 0, 0, "", 2, 0, Pending);
    assert Step(setup, Initial, buy) == State([first], [], 2);
    var s := State([first, second], [], 3);
    assert Step(setup, State([first], [], 2), sell) == s;
    assert [buy, sell][1..] == [sell] && [sell][1..] == [];
    assert Run(setup, State([first], [], 2), [sell]) == Run(setup, s, []) == s;
    assert Run(setup, Initial, [buy, sell]) == s;
    var a := Available(Some(Shown(1, one)), Some(Shown(1, one)));
    assert Execute(setup, first, tick, a.buy) == Ok(Some(Execution(3, 1)));
    var t := Filling(s, 0, tick, Execution(3, 1));
    assert MatchFrom(setup, t, tick, LeftOver(setup, a, Buy, Execution(3, 1)), 1) == Outcome(t, Err(InvalidSlippage));
    assert MatchFrom(setup, s, tick, a, 0) == Outcome(t, Err(InvalidSlippage));
    assert Offered(setup, tick.event, Buy) == a.buy && Offered(setup, tick.event, Sell) == a.sell;
    assert Evaluate(setup, s, tick) == MatchFrom(setup, s, tick, a, 0);
    assert |"buy"| == 3 && |"sell"| == 4;
    assert FreshIds(setup, State([first], [], 2), [sell]);
    assert FreshIds(setup, Initial, [buy, sell]);
  }
}
