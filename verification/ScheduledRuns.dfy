/** Whole runs of the scheduled simulator. */
module ScheduledRuns {
  import opened Wrappers
  import opened MachineIntegers
  import opened MarketTypes
  import opened Book
  import opened Depth
  import opened Trading
  import opened ScheduledModel
  import opened ScheduledInvariant
  import opened ScheduledSteps

  datatype Op =
    | PublishBookOp(evidence: BookEvidence)
    | PublishTradingOp(instrument: InstrumentId, trading: TradingState)
    | SubmitOp(decisionTime: i64, id: OrderId, request: Request)
    | CancelOp(clientId: string)
    | ExpireOp(id: OrderId, at: i64)
    | ActivateOp(id: OrderId, at: i64)
    | EvaluateOp(instrument: InstrumentId, at: i64)
    | InterruptOp(instrument: InstrumentId)
    | AuctionOp(auction: AuctionEvidence)

  function Plain<T>(o: Outcome<T>): Outcome<()> {
    match o.result
    case Ok(_) => Outcome(o.state, Ok(()))
    case Err(e) => Outcome(o.state, Err(e))
  }

  function Step(configs: Configs, s: State, op: Op): Outcome<()> {
    match op
    case PublishBookOp(e) => PublishBook(configs, s, e)
    case PublishTradingOp(k, t) => PublishTrading(configs, s, k, t)
    case SubmitOp(decisionTime, id, request) => Plain(Submit(configs, s, decisionTime, id, request))
    case CancelOp(client) => CancelBeforeActivation(s, client)
    case ExpireOp(id, at) => Expire(s, id, at)
    case ActivateOp(id, at) => Plain(Activate(configs, s, id, at))
    case EvaluateOp(k, at) => EvaluateActive(configs, s, k, at)
    case InterruptOp(k) => CancelInterrupted(configs, s, k)
    case AuctionOp(e) => EvaluateAuction(configs, s, e)
  }

  /** A run goes on after an operation that reports an error. */
  function Run(configs: Configs, s: State, ops: seq<Op>): State
    decreases ops
  {
    if ops == [] then s else Run(configs, Step(configs, s, ops[0]).state, ops[1..])
  }

  /** What a run asks of its caller: order ids are new, and no evaluation fills an order before its activation time. */
  predicate Admissible(configs: Configs, s: State, op: Op) {
    match op
    case SubmitOp(_, id, _) => FreshId(s, id)
    case EvaluateOp(k, at) => !EvaluatesEarly(configs, s, k, at, 0)
    case _ => true
  }

  predicate Legal(configs: Configs, s: State, ops: seq<Op>)
    decreases ops
  {
    ops == [] || (Admissible(configs, s, ops[0]) && Legal(configs, Step(configs, s, ops[0]).state, ops[1..]))
  }

  lemma {:induction false} StepSound(configs: Configs, s: State, op: Op)
    requires Inv(configs, s) && Admissible(configs, s, op)
    ensures Sound(configs, s, Step(configs, s, op))
  {
    match op
    case PublishBookOp(e) => PublishBookSound(configs, s, e);
    case PublishTradingOp(k, t) => PublishTradingSound(configs, s, k, t);
    case SubmitOp(decisionTime, id, request) => SubmitSound(configs, s, decisionTime, id, request);
    case CancelOp(client) => CancelSound(configs, s, client);
    case ExpireOp(id, at) => ExpireSound(configs, s, id, at);
    case ActivateOp(id, at) => ActivateSound(configs, s, id, at);
    case EvaluateOp(k, at) => EvaluateFromSound(configs, s, k, at, 0);
    case InterruptOp(k) => CancelInterruptedSound(configs, s, k);
    case AuctionOp(e) => EvaluateAuctionSound(configs, s, e);
  }

  lemma {:induction false} EvaluateAuctionSound(configs: Configs, s: State, e: AuctionEvidence)
    requires Inv(configs, s)
    ensures Sound(configs, s, EvaluateAuction(configs, s, e))
  {
    if e.instrument in configs && Accepts(configs[e.instrument].policy, e.price) {
      AuctionFromSound(configs, s, e, 0);
    }
  }

  // ------------------------------------------------------------- main results

  ghost predicate AllLater(s: State, t: State) {
    |s.orders| <= |t.orders| && forall i :: 0 <= i < |s.orders| ==> Later(s.orders[i], t.orders[i])
  }

  /** Over any run the invariant holds and every order's status only goes up. */
  lemma {:induction false} RunKeepsInv(configs: Configs, s: State, ops: seq<Op>)
    requires Inv(configs, s) && Legal(configs, s, ops)
    ensures Inv(configs, Run(configs, s, ops)) && AllLater(s, Run(configs, s, ops))
    decreases ops
  {
    if ops != [] {
      var t := Step(configs, s, ops[0]).state;
      StepSound(configs, s, ops[0]);
      RunKeepsInv(configs, t, ops[1..]);
      ClimbsThenLater(s, t, Run(configs, s, ops));
    }
  }

  lemma {:induction false} ClimbsThenLater(s: State, t: State, u: State)
    requires AllClimb(s, t) && AllLater(t, u)
    ensures AllLater(s, u)
  {
    forall i | 0 <= i < |s.orders| ensures Later(s.orders[i], u.orders[i]) {
      assert Climbs(s.orders[i], t.orders[i]) && Later(t.orders[i], u.orders[i]);
    }
  }

  lemma {:induction false} InitialHolds(configs: Configs)
    ensures Inv(configs, Initial)
  {
  }

  /** After any legal run: an order's filled quantity is the sum of its fills and within its request, and
      a level's consumption is what depth fills took from it since its book was published and within
      what it displays. */
  lemma {:induction false} EveryRunAccounts(configs: Configs, ops: seq<Op>, i: nat, k: InstrumentId, side: OrderSide, level: nat)
    requires Legal(configs, Initial, ops)
    ensures var s := Run(configs, Initial, ops);
      i < |s.orders| ==> s.orders[i].filled == FilledOf(s.fills, s.orders[i].id) <= s.orders[i].request.intent.quantity.value
    ensures var s := Run(configs, Initial, ops);
      k in s.books && 1 <= level <= BOOK_DEPTH ==>
        var consumed, levels := ConsumedOn(s.books[k], side)[level - 1], SideLevels(s.books[k].book, side);
        && k in s.published && consumed == LevelTaken(s.fills, s.published[k], k, side, level)
        && (level <= |levels| ==> consumed <= levels[level - 1].displayed.value)
  {
    InitialHolds(configs);
    RunKeepsInv(configs, Initial, ops);
    var s := Run(configs, Initial, ops);
    assert i < |s.orders| ==> OrderOk(configs, s.fills, s.orders[i]);
    assert BookOk(configs, s, k);
  }

  /** Every operation of every legal run from the start succeeds or reports a proper error: no
      `expect` fails, and no fill is reported after it was refused. */
  lemma {:induction false} NothingPanics(configs: Configs, ops: seq<Op>, op: Op)
    requires Legal(configs, Initial, ops + [op])
    ensures var r := Step(configs, Run(configs, Initial, ops), op).result; r != Err(Panicked) && r != Err(FillFeedback)
  {
    InitialHolds(configs);
    PanicsNever(configs, Initial, ops, op);
  }

  lemma {:induction false} PanicsNever(configs: Configs, s: State, ops: seq<Op>, op: Op)
    requires Inv(configs, s) && Legal(configs, s, ops + [op])
    ensures var r := Step(configs, Run(configs, s, ops), op).result; r != Err(Panicked) && r != Err(FillFeedback)
    decreases ops
  {
    if ops == [] {
      assert (ops + [op])[0] == op;
      StepSound(configs, s, op);
    } else {
      assert (ops + [op])[0] == ops[0] && (ops + [op])[1..] == ops[1..] + [op];
      StepSound(configs, s, ops[0]);
      PanicsNever(configs, Step(configs, s, ops[0]).state, ops[1..], op);
    }
  }

  function FilledAt(s: State, i: nat): nat {
    if i < |s.orders| then s.orders[i].filled else 0
  }

  /** An order that was filled by one operation is filled by no other operation of the run. */
  lemma {:induction false} FilledInOneCall(configs: Configs, s: State, op: Op, ops: seq<Op>, i: nat)
    requires Inv(configs, s) && Legal(configs, s, [op] + ops)
    requires FilledAt(Step(configs, s, op).state, i) != FilledAt(s, i)
    ensures FilledAt(s, i) == 0
    ensures FilledAt(Run(configs, s, [op] + ops), i) == FilledAt(Step(configs, s, op).state, i)
  {
    var t := Step(configs, s, op).state;
    StepSound(configs, s, op);
    assert ([op] + ops)[1..] == ops;
    RunKeepsInv(configs, t, ops);
    if i < |s.orders| {
      assert Climbs(s.orders[i], t.orders[i]) && Later(t.orders[i], Run(configs, t, ops).orders[i]);
    }
  }

  /** After an activation succeeds, no order accepted before it for the same time is ever waiting. */
  lemma {:induction false} ActivationsFollowAcceptance(configs: Configs, s: State, id: OrderId, at: i64, ops: seq<Op>, i: nat, j: nat)
    requires Inv(configs, s) && Legal(configs, s, [ActivateOp(id, at)] + ops)
    requires Activate(configs, s, id, at).result.Ok?
    requires i < |Run(configs, s, [ActivateOp(id, at)] + ops).orders| && j < |Run(configs, s, [ActivateOp(id, at)] + ops).orders|
    requires var orders := Run(configs, s, [ActivateOp(id, at)] + ops).orders;
      orders[i].id == id && orders[j].request.activateAt == at && orders[j].sequence <= orders[i].sequence
    ensures Run(configs, s, [ActivateOp(id, at)] + ops).orders[j].status != Scheduled
  {
    var op := ActivateOp(id, at);
    var t := Step(configs, s, op).state;
    var u := Run(configs, t, ops);
    StepSound(configs, s, op);
    assert ([op] + ops)[1..] == ops && ([op] + ops)[0] == op;
    RunKeepsInv(configs, t, ops);
    var n := Find(s.orders, id).value;
    ActivateNextSound(configs, s, n, at);
    WaitingBefore(s, t, u, n, i, j);
  }

  lemma {:induction false} WaitingBefore(s: State, t: State, u: State, n: nat, i: nat, j: nat)
    requires Distinct(u) && AllClimb(s, t) && AllLater(t, u) && n < |s.orders| && i < |u.orders| && j < |u.orders|
    requires s.orders[n].id == u.orders[i].id && u.orders[j].sequence <= u.orders[i].sequence
    requires !EarlierWaits(s.orders, n, u.orders[j].request.activateAt) && t.orders[n].status != Scheduled
    ensures u.orders[j].status != Scheduled
  {
    assert Climbs(s.orders[n], t.orders[n]) && Later(t.orders[n], u.orders[n]);
    assert i == n && j <= n;
    assert Climbs(s.orders[j], t.orders[j]) && Later(t.orders[j], u.orders[j]);
    if j < n {
      assert u.orders[j].sequence < u.orders[n].sequence;
    }
  }

  /** A client id has at most one order that has not been replaced. */
  lemma {:induction false} OneOrderPerClient(configs: Configs, s: State, i: nat, j: nat)
    requires Inv(configs, s) && i < |s.orders| && j < |s.orders|
    requires s.orders[i].request.clientId == s.orders[j].request.clientId
    requires s.orders[i].status != Replaced && s.orders[j].status != Replaced
    ensures i == j
  {
    assert ClientOk(s, i) && ClientOk(s, j);
  }

  // ------------------------------------------------- runs that are not legal

  /** Every id that is submitted is new when it is. */
  predicate SubmitsNew(configs: Configs, s: State, ops: seq<Op>)
    decreases ops
  {
    ops == [] || ((ops[0].SubmitOp? ==> FreshId(s, ops[0].id)) && SubmitsNew(configs, Step(configs, s, ops[0]).state, ops[1..]))
  }

  ghost predicate HoldsThroughout(configs: Configs, s: State, ops: seq<Op>)
    decreases ops
  {
    Inv(configs, s) && (ops == [] || HoldsThroughout(configs, Step(configs, s, ops[0]).state, ops[1..]))
  }

  /** The evaluations that a legal run leaves out are exactly the ones that break the invariant. */
  lemma {:induction false} LegalExactly(configs: Configs, s: State, ops: seq<Op>)
    requires Inv(configs, s) && SubmitsNew(configs, s, ops)
    ensures HoldsThroughout(configs, s, ops) <==> Legal(configs, s, ops)
    decreases ops
  {
    if ops != [] {
      var t := Step(configs, s, ops[0]).state;
      if Admissible(configs, s, ops[0]) {
        StepSound(configs, s, ops[0]);
        LegalExactly(configs, t, ops[1..]);
      } else {
        EvaluateFromSound(configs, s, ops[0].instrument, ops[0].at, 0);
        assert !HoldsThroughout(configs, t, ops[1..]);
      }
    }
  }

  /** Evaluations that come when all their orders are due are admissible. */
  lemma {:induction false} DueIsAdmissible(configs: Configs, s: State, k: InstrumentId, at: i64)
    requires NoneEarly(s, k, at, 0)
    ensures Admissible(configs, s, EvaluateOp(k, at))
  {
    NoneEvaluatesEarly(configs, s, k, at, 0);
  }

  // One share offered at price 1, and an order for it that is activated at 10 and evaluated at 5.

  const One := Quantity(1, Share)
  const OneShown := Snapshot(BookSide(Bid, None, [None, None, None, None, None]),
                             BookSide(Ask, None, [Some(BookLevel(1, One)), None, None, None, None]))
  const Continuous := TradingState(0, 0, Enabled(ContinuousMatching), EntryAllowed)

  function Shares(k: InstrumentId): Configs {
    map[k := InstrumentRules(Share, DepthModel(1, 1000, 0), PositiveOnly)]
  }

  function Waiting(k: InstrumentId): Request {
    Request("client", 10, None, Intent(k, Buy, One, Market), DepthUntilExpiry)
  }

  function EarlyRun(k: InstrumentId): seq<Op> {
    [PublishBookOp(BookEvidence(k, OneShown, Continuous)), SubmitOp(0, "order", Waiting(k)), ActivateOp("order", 10)]
  }

  lemma {:induction false} OneOffer(book: Snapshot, one: Quantity)
    requires book.bids.slots == [None, None, None, None, None] && book.bids.marketOrders == None && book.asks.marketOrders == None
    requires book.asks.slots == [Some(BookLevel(1, one)), None, None, None, None] && one.value == 1
    ensures SideLevels(book, Sell) == [] && SideLevels(book, Buy) == [BookLevel(1, one)] && BookUnit(book) == Some(one.unit)
    ensures SweepDepth(book, one, 1, Rule(Buy, Market, 0), [0, 0, 0, 0, 0]) == Ok(Sweep([LevelFill(1, 1, one)], one, 1))
  {
    var levels := SideLevels(book, Buy);
    assert Levels(book.asks.slots[1..]) == [];
    assert levels == [BookLevel(1, one)];
    assert [] + [LevelFill(1, 1, one)] == [LevelFill(1, 1, one)];
    assert SweepFrom(levels, [0, 0, 0, 0, 0], 1, 1, 0, one.unit, Rule(Buy, Market, 0), [LevelFill(1, 1, one)])
        == Ok([LevelFill(1, 1, one)]);
    assert Depth.Filled([LevelFill(1, 1, one)]) == 1;
  }

  lemma {:induction false} ThreeSteps(configs: Configs, s: State, a: Op, b: Op, c: Op)
    ensures var t := Step(configs, s, a).state; var u := Step(configs, t, b).state;
      && Run(configs, s, [a, b, c]) == Step(configs, u, c).state
      && (Legal(configs, s, [a, b, c]) <==> Admissible(configs, s, a) && Admissible(configs, t, b) && Admissible(configs, u, c))
  {
    var t := Step(configs, s, a).state;
    var u := Step(configs, t, b).state;
    assert [a, b, c][1..] == [b, c] && [b, c][1..] == [c] && [c][1..] == [];
    assert Run(configs, u, [c]) == Step(configs, u, c).state && Run(configs, t, [b, c]) == Run(configs, u, [c]);
    assert Legal(configs, u, [c]) == Admissible(configs, u, c);
  }

  lemma {:induction false} EarlyPublished(k: InstrumentId) returns (s: State)
    ensures s == Step(Shares(k), Initial, EarlyRun(k)[0]).state
    ensures s == State(map[k := BookState(OneShown, 0, 0, [0, 0, 0, 0, 0], [0, 0, 0, 0, 0])], map[k := Continuous], [], map[], [], [], 1, map[k := 0])
  {
    OneOffer(OneShown, One);
    s := Step(Shares(k), Initial, EarlyRun(k)[0]).state;
  }

  lemma {:induction false} EarlySubmitted(k: InstrumentId, s: State) returns (t: State)
    requires s.orders == [] && s.clients == map[] && s.nextSequence == 1
    ensures t == Step(Shares(k), s, EarlyRun(k)[1]).state
    ensures t == s.(nextSequence := 2, clients := map["client" := "order"], orders := [Order("order", Waiting(k), 1, 0, Scheduled)])
  {
    t := Step(Shares(k), s, EarlyRun(k)[1]).state;
  }

  lemma {:induction false} EarlyActivated(k: InstrumentId, s: State) returns (t: State)
    requires s.orders == [Order("order", Waiting(k), 1, 0, Scheduled)] && k in s.trading && s.trading[k] == Continuous
    ensures t == Step(Shares(k), s, EarlyRun(k)[2]).state
    ensures t == s.(orders := [Order("order", Waiting(k), 1, 0, Active)])
  {
    assert Find(s.orders, "order") == Some(0);
    t := Step(Shares(k), s, EarlyRun(k)[2]).state;
  }

  lemma {:induction false} EarlyWaits(k: InstrumentId, s: State)
    requires k in s.books && s.books[k] == BookState(OneShown, 0, 0, [0, 0, 0, 0, 0], [0, 0, 0, 0, 0])
    requires s.orders == [Order("order", Waiting(k), 1, 0, Active)] && k in s.trading && s.trading[k] == Continuous
    ensures EvaluatesEarly(Shares(k), s, k, 5, 0)
  {
    OneOffer(OneShown, One);
    assert PassiveSweep(Shares(k), s, 0, 5) == Some(Sweep([LevelFill(1, 1, One)], One, 1));
  }

  lemma {:induction false} EarlyReached(k: InstrumentId) returns (s: State)
    ensures Legal(Shares(k), Initial, EarlyRun(k)) && s == Run(Shares(k), Initial, EarlyRun(k)) && EvaluatesEarly(Shares(k), s, k, 5, 0)
  {
    var ops := EarlyRun(k);
    var published := EarlyPublished(k);
    var submitted := EarlySubmitted(k, published);
    s := EarlyActivated(k, submitted);
    ThreeSteps(Shares(k), Initial, ops[0], ops[1], ops[2]);
    EarlyWaits(k, s);
  }

  /** That evaluation is refused after its fill is recorded. */
  lemma {:induction false} EarlyRunFails(k: InstrumentId)
    ensures var r := Step(Shares(k), Run(Shares(k), Initial, EarlyRun(k)), EvaluateOp(k, 5));
      Legal(Shares(k), Initial, EarlyRun(k)) && r.result == Err(FillFeedback) && !Inv(Shares(k), r.state)
  {
    var s := EarlyReached(k);
    InitialHolds(Shares(k));
    RunKeepsInv(Shares(k), Initial, EarlyRun(k));
    EvaluateFromSound(Shares(k), s, k, 5, 0);
  }
}
