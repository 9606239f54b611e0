/** Every operation of the scheduled simulator keeps its invariant, and no `expect` can fail. */
module ScheduledSteps {
  import opened Wrappers
  import opened MachineIntegers
  import opened MarketTypes
  import opened Book
  import opened Depth
  import opened Trading
  import opened ScheduledModel
  import opened ScheduledInvariant

  /** What every operation does from a state that satisfies the invariant. */
  ghost predicate Sound<T(!new)>(configs: Configs, s: State, o: Outcome<T>) {
    Inv(configs, o.state) && AllClimb(s, o.state) && o.result != Err(Panicked) && o.result != Err(FillFeedback)
  }

  lemma {:induction false} StatusSetKeepsInv(configs: Configs, s: State, i: nat, status: Status)
    requires Inv(configs, s) && i < |s.orders|
    requires Moves(s.orders[i].status, status) && FilledFits(s.orders[i].(status := status))
    ensures Inv(configs, WithStatus(s, i, status)) && AllClimb(s, WithStatus(s, i, status))
  {
    var t := WithStatus(s, i, status);
    forall j | 0 <= j < |s.orders| ensures Moves(s.orders[j].status, t.orders[j].status) && FilledFits(t.orders[j]) {
      assert OrderOk(configs, s.fills, s.orders[j]);
    }
    StatusChangeKeepsInv(configs, s, t);
  }

  // ------------------------------------------------------------- publications

  lemma {:induction false} PublishTradingSound(configs: Configs, s: State, k: InstrumentId, t: TradingState)
    requires Inv(configs, s)
    ensures Sound(configs, s, PublishTrading(configs, s, k, t))
  {
    forall j | 0 <= j < |s.orders| ensures FilledFits(s.orders[j]) {
      assert OrderOk(configs, s.fills, s.orders[j]);
    }
    StatusChangeKeepsInv(configs, s, PublishTrading(configs, s, k, t).state);
  }

  lemma {:induction false} NothingTaken(fills: seq<Fill>, k: InstrumentId, side: OrderSide)
    ensures forall level :: LevelTaken(fills, |fills|, k, side, level) == 0
  {
  }

  lemma {:induction false} PublishBookSound(configs: Configs, s: State, e: BookEvidence)
    requires Inv(configs, s)
    ensures Sound(configs, s, PublishBook(configs, s, e))
  {
    PublishTradingSound(configs, s, e.instrument, e.trading);
    var r := PublishBook(configs, s, e);
    if r.result.Ok? {
      var u := PublishTrading(configs, s, e.instrument, e.trading).state;
      BookReplacedKeepsInv(configs, u, r.state, e.instrument);
    }
  }

  /** `t` is `s` with a book published for `k`. */
  ghost predicate Publishes(configs: Configs, s: State, t: State, k: InstrumentId) {
    && k in t.books && k in t.published && t.published[k] == |t.fills| && k in configs
    && t == s.(books := s.books[k := t.books[k]], published := s.published[k := t.published[k]])
    && t.books[k].consumedBids == t.books[k].consumedAsks == [0, 0, 0, 0, 0]
    && (BookUnit(t.books[k].book) == None || BookUnit(t.books[k].book).value == configs[k].unit)
    && PricesAccepted(SideLevels(t.books[k].book, Buy), configs[k].policy)
    && PricesAccepted(SideLevels(t.books[k].book, Sell), configs[k].policy)
  }

  lemma {:induction false} PublishedBooksOk(configs: Configs, s: State, t: State, k: InstrumentId, m: InstrumentId)
    requires Publishes(configs, s, t, k) && BookOk(configs, s, m)
    ensures BookOk(configs, t, m)
  {
    NothingTaken(t.fills, m, Buy);
    NothingTaken(t.fills, m, Sell);
  }

  lemma {:induction false} BookReplacedKeepsInv(configs: Configs, s: State, t: State, k: InstrumentId)
    requires Inv(configs, s) && Publishes(configs, s, t, k)
    ensures Inv(configs, t) && AllClimb(s, t)
  {
    forall m ensures BookOk(configs, t, m) {
      assert BookOk(configs, s, m);
      PublishedBooksOk(configs, s, t, k, m);
    }
    forall i | 0 <= i < |t.orders| ensures ClientOk(t, i) {
      assert ClientOk(s, i);
    }
    forall c ensures IndexOk(t, c) {
      assert IndexOk(s, c);
    }
  }

  // ------------------------------------------------- orders before activation

  lemma {:induction false} ReplaceSound(configs: Configs, s: State, client: string)
    requires Inv(configs, s)
    ensures Sound(configs, s, Replace(s, client))
    ensures var t := Replace(s, client).state;
      && t == s.(orders := t.orders) && |t.orders| == |s.orders|
      && forall i :: 0 <= i < |s.orders| ==> t.orders[i].id == s.orders[i].id
    ensures Replace(s, client).result.Ok? ==>
      forall i :: 0 <= i < |s.orders| && s.orders[i].request.clientId == client ==> Replace(s, client).state.orders[i].status == Replaced
  {
    assert IndexOk(s, client);
    if client in s.clients && Find(s.orders, s.clients[client]).Some? {
      var i := Find(s.orders, s.clients[client]).value;
      assert OrderOk(configs, s.fills, s.orders[i]);
      if s.orders[i].status == Scheduled {
        StatusSetKeepsInv(configs, s, i, Replaced);
      }
    }
    forall i | 0 <= i < |s.orders| && s.orders[i].request.clientId == client && Replace(s, client).result.Ok?
      ensures Replace(s, client).state.orders[i].status == Replaced
    {
      assert ClientOk(s, i);
    }
  }

  predicate FreshId(s: State, id: OrderId) {
    forall i :: 0 <= i < |s.orders| ==> s.orders[i].id != id
  }

  lemma {:induction false} SubmitSound(configs: Configs, s: State, decisionTime: i64, id: OrderId, request: Request)
    requires Inv(configs, s) && FreshId(s, id)
    ensures Sound(configs, s, Submit(configs, s, decisionTime, id, request))
  {
    ReplaceSound(configs, s, request.clientId);
    var u := Replace(s, request.clientId).state;
    var r := Submit(configs, s, decisionTime, id, request);
    if r.result.Ok? {
      AppendKeepsInv(configs, u, id, request, r.state);
    }
  }

  ghost predicate Appends(s: State, id: OrderId, request: Request, t: State) {
    && FreshId(s, id) && IsU64(s.nextSequence + 1)
    && t == s.(nextSequence := s.nextSequence + 1, clients := s.clients[request.clientId := id],
               orders := s.orders + [Order(id, request, s.nextSequence, 0, Scheduled)])
  }

  lemma {:induction false} AppendKeepsClients(configs: Configs, s: State, id: OrderId, request: Request, t: State)
    requires Inv(configs, s) && Appends(s, id, request, t)
    requires forall i :: 0 <= i < |s.orders| && s.orders[i].request.clientId == request.clientId ==> s.orders[i].status == Replaced
    ensures forall i :: 0 <= i < |t.orders| ==> ClientOk(t, i)
    ensures forall c :: IndexOk(t, c)
  {
    forall i | 0 <= i < |t.orders| ensures ClientOk(t, i) {
      if i < |s.orders| {
        assert ClientOk(s, i);
      }
    }
    forall c ensures IndexOk(t, c) {
      assert IndexOk(s, c);
      if c == request.clientId {
        assert t.orders[|s.orders|].id == t.clients[c] && t.orders[|s.orders|].request.clientId == c;
      } else if c in t.clients {
        var i :| 0 <= i < |s.orders| && s.orders[i].id == s.clients[c] && s.orders[i].request.clientId == c;
        assert t.orders[i].id == t.clients[c] && t.orders[i].request.clientId == c;
      }
    }
  }

  lemma {:induction false} AppendKeepsFills(configs: Configs, s: State, id: OrderId, request: Request, t: State)
    requires Appends(s, id, request, t)
    requires forall j :: 0 <= j < |s.fills| ==> FillOk(configs, s.orders, s.fills[j])
    requires forall k :: BookOk(configs, s, k)
    ensures forall j :: 0 <= j < |t.fills| ==> FillOk(configs, t.orders, t.fills[j])
    ensures forall k :: BookOk(configs, t, k)
  {
    forall k ensures BookOk(configs, t, k) {
      assert BookOk(configs, s, k);
    }
    forall j | 0 <= j < |t.fills| ensures FillOk(configs, t.orders, t.fills[j]) {
      assert FillOk(configs, s.orders, s.fills[j]);
      var i :| 0 <= i < |s.orders| && Fills(configs, s.orders[i], s.fills[j]);
      assert Fills(configs, t.orders[i], t.fills[j]);
    }
  }

  lemma {:induction false} AppendKeepsInv(configs: Configs, s: State, id: OrderId, request: Request, t: State)
    requires Inv(configs, s) && Appends(s, id, request, t)
    requires request.intent.instrument in configs && request.intent.quantity.unit == configs[request.intent.instrument].unit
    requires LimitAccepted(request.intent.orderType, configs[request.intent.instrument].policy)
    requires forall i :: 0 <= i < |s.orders| && s.orders[i].request.clientId == request.clientId ==> s.orders[i].status == Replaced
    ensures Inv(configs, t) && AllClimb(s, t)
  {
    FreshHasNoFills(configs, s, id);
    AppendKeepsClients(configs, s, id, request, t);
    AppendKeepsFills(configs, s, id, request, t);
  }

  lemma {:induction false} FreshHasNoFills(configs: Configs, s: State, id: OrderId)
    requires FreshId(s, id) && forall j :: 0 <= j < |s.fills| ==> FillOk(configs, s.orders, s.fills[j])
    ensures FilledOf(s.fills, id) == 0
  {
    forall j | 0 <= j < |s.fills| ensures s.fills[j].orderId != id {
      assert FillOk(configs, s.orders, s.fills[j]);
    }
    NoFills(s.fills, id);
  }

  lemma {:induction false} CancelSound(configs: Configs, s: State, client: string)
    requires Inv(configs, s)
    ensures Sound(configs, s, CancelBeforeActivation(s, client))
  {
    var r := CancelBeforeActivation(s, client);
    if r.result.Ok? {
      var i := Find(s.orders, s.clients[client]).value;
      assert OrderOk(configs, s.fills, s.orders[i]);
      StatusSetKeepsInv(configs, s, i, Cancelled);
    }
  }

  lemma {:induction false} ExpireSound(configs: Configs, s: State, id: OrderId, at: i64)
    requires Inv(configs, s)
    ensures Sound(configs, s, Expire(s, id, at))
  {
    var r := Expire(s, id, at);
    if r.result.Ok? {
      var i := Find(s.orders, id).value;
      assert OrderOk(configs, s.fills, s.orders[i]);
      StatusSetKeepsInv(configs, s, i, Expired);
    }
  }

  lemma {:induction false} CancelInterruptedSound(configs: Configs, s: State, k: InstrumentId)
    requires Inv(configs, s)
    ensures Sound(configs, s, CancelInterrupted(configs, s, k))
  {
    var t := CancelInterrupted(configs, s, k).state;
    forall j | 0 <= j < |s.orders| ensures Moves(s.orders[j].status, t.orders[j].status) && FilledFits(t.orders[j]) {
      assert OrderOk(configs, s.fills, s.orders[j]);
    }
    StatusChangeKeepsInv(configs, s, t);
  }

  // --------------------------------------------------------------- activation

  lemma {:induction false} FailActivationSound(configs: Configs, s: State, i: nat, reason: FailureReason)
    requires Inv(configs, s) && i < |s.orders| && s.orders[i].status == Scheduled
    ensures Sound(configs, s, FailActivation(s, i, reason))
  {
    assert OrderOk(configs, s.fills, s.orders[i]);
    StatusSetKeepsInv(configs, s, i, Failed(reason));
  }

  lemma {:induction false} FinishActivationSound(configs: Configs, s: State, i: nat, sweep: Sweep, at: i64)
    requires Inv(configs, s) && i < |s.orders| && Usable(configs, s, s.orders[i].request.intent.instrument, at)
    requires s.orders[i].status == Scheduled && s.orders[i].request.activateAt == at && s.orders[i].request.policy == DepthAtActivation
    requires SweepFor(configs[s.orders[i].request.intent.instrument], s.books[s.orders[i].request.intent.instrument], s.orders[i],
                      s.orders[i].request.intent.quantity) == Ok(sweep)
    ensures var r := FinishActivation(s, i, sweep, at); Sound(configs, s, r) && r.state.orders[i].status != Scheduled
  {
    var o := s.orders[i];
    assert OrderOk(configs, s.fills, o);
    var _ := SweepBooks(configs, s, i, o.request.intent.quantity, sweep, at);
    var reason := if sweep.filled == 0 && o.request.intent.orderType.Limit? then PriceNotMarketable else InsufficientVisibleDepth;
    var status := if sweep.filled == o.request.intent.quantity.value then Filled else Failed(reason);
    SweepKeepsInv(configs, s, i, o.request.intent.quantity, sweep, at, status);
  }

  lemma {:induction false} ExecuteAtActivationSound(configs: Configs, s: State, i: nat, at: i64)
    requires Inv(configs, s) && i < |s.orders| && s.orders[i].status == Scheduled && s.orders[i].request.activateAt == at
    requires s.orders[i].request.policy == DepthAtActivation
    ensures Sound(configs, s, ExecuteAtActivation(configs, s, i, at))
    ensures ExecuteAtActivation(configs, s, i, at).result.Ok? ==> ExecuteAtActivation(configs, s, i, at).state.orders[i].status != Scheduled
  {
    var o := s.orders[i];
    assert OrderOk(configs, s.fills, o);
    var k := o.request.intent.instrument;
    forall reason ensures Sound(configs, s, FailActivation(s, i, reason)) {
      FailActivationSound(configs, s, i, reason);
    }
    if k in s.books && s.books[k].visibleAt <= at && StaleMicros(configs[k].model).Ok? && Age(s.books[k], at).Ok?
       && 0 <= Age(s.books[k], at).value <= StaleMicros(configs[k].model).value
    {
      var swept := SweepFor(configs[k], s.books[k], o, o.request.intent.quantity);
      if swept.Ok? {
        FinishActivationSound(configs, s, i, swept.value, at);
      }
    }
  }

  lemma {:induction false} SettleSound(configs: Configs, s: State, i: nat, at: i64)
    requires Inv(configs, s) && i < |s.orders| && s.orders[i].status == Scheduled && s.orders[i].request.activateAt == at
    requires s.orders[i].request.policy == SettlementAtActivation
    ensures Sound(configs, s, SettleAtActivation(s, i, at))
    ensures SettleAtActivation(s, i, at).result.Ok? ==> SettleAtActivation(s, i, at).state.orders[i].status != Scheduled
  {
    var o := s.orders[i];
    assert OrderOk(configs, s.fills, o);
    if o.request.intent.orderType.Limit? {
      FillWholeKeepsInv(configs, s, i, at, o.request.intent.orderType.limitPrice, FromSettlement);
    }
  }

  lemma {:induction false} ActivateNextSound(configs: Configs, s: State, i: nat, at: i64)
    requires Inv(configs, s) && i < |s.orders| && s.orders[i].status == Scheduled && s.orders[i].request.activateAt == at
    ensures Sound(configs, s, ActivateNext(configs, s, i, at))
    ensures var r := ActivateNext(configs, s, i, at); r.result.Ok? ==> r.state.orders[i].status != Scheduled
  {
    var r, o := ActivateNext(configs, s, i, at), s.orders[i];
    var k := o.request.intent.instrument;
    if k in s.trading && s.trading[k].visibleAt <= at && !EntryAllows(s.trading[k].entry, o.request.intent.orderType) {
      FailActivationSound(configs, s, i, NewOrderEntryBlocked);
    } else if o.request.policy == SettlementAtActivation {
      SettleSound(configs, s, i, at);
    } else if o.request.policy == DepthAtActivation {
      ExecuteAtActivationSound(configs, s, i, at);
    } else {
      assert r == Outcome(WithStatus(s, i, Active), Ok(Active));
      assert OrderOk(configs, s.fills, s.orders[i]);
      StatusSetKeepsInv(configs, s, i, Active);
    }
  }

  lemma {:induction false} ActivateSound(configs: Configs, s: State, id: OrderId, at: i64)
    requires Inv(configs, s)
    ensures Sound(configs, s, Activate(configs, s, id, at))
  {
    var found := Find(s.orders, id);
    if found.Some? && s.orders[found.value].status == Scheduled && s.orders[found.value].request.activateAt == at {
      ActivateNextSound(configs, s, found.value, at);
    }
  }

  // -------------------------------------------------------------- evaluation

  /** Orders before `i` are as they were. */
  ghost predicate KeepsBefore(s: State, t: State, i: nat) {
    |t.orders| == |s.orders| && forall j :: 0 <= j < i && j < |s.orders| ==> t.orders[j] == s.orders[j]
  }

  ghost predicate KeepsOthers(s: State, t: State, i: nat) {
    |t.orders| == |s.orders| && forall j :: 0 <= j < |s.orders| && j != i ==> t.orders[j] == s.orders[j]
  }

  lemma {:induction false} SettlePassiveSound(configs: Configs, s: State, i: nat, requested: Quantity, sweep: Sweep, at: i64)
    requires Inv(configs, s) && i < |s.orders| && Usable(configs, s, s.orders[i].request.intent.instrument, at)
    requires s.orders[i].status == Active && s.orders[i].request.policy == DepthUntilExpiry
    requires sweep.fills == [] || s.orders[i].request.activateAt <= at
    requires requested.value == s.orders[i].request.intent.quantity.value
    requires SweepFor(configs[s.orders[i].request.intent.instrument], s.books[s.orders[i].request.intent.instrument], s.orders[i], requested)
             == Ok(sweep)
    ensures Sound(configs, s, SettlePassive(s, i, requested, sweep, at))
    ensures KeepsOthers(s, SettlePassive(s, i, requested, sweep, at).state, i)
  {
    assert OrderOk(configs, s.fills, s.orders[i]);
    var _ := SweepBooks(configs, s, i, requested, sweep, at);
    var status := if sweep.filled == requested.value then Filled else if sweep.filled > 0 then PartiallyFilled else MatchAttempted;
    SweepKeepsInv(configs, s, i, requested, sweep, at, status);
  }

  /** A fresh visible book, while matching is enabled. */
  predicate Ready(configs: Configs, s: State, k: InstrumentId, at: i64) {
    && k in configs && k in s.books && s.books[k].visibleAt <= at && StaleMicros(configs[k].model).Ok? && Age(s.books[k], at).Ok?
    && 0 <= Age(s.books[k], at).value <= StaleMicros(configs[k].model).value && SeesEnabledMatching(s, k, at)
  }

  /** The sweep that a passive execution books. */
  function PassiveSweep(configs: Configs, s: State, i: nat, at: i64): Option<Sweep>
    requires i < |s.orders|
  {
    var o := s.orders[i];
    var k := o.request.intent.instrument;
    if !Ready(configs, s, k, at) then None else
    match SweepFor(configs[k], s.books[k], o, o.request.intent.quantity)
    case Ok(sweep) => Some(sweep)
    case Err(_) => None
  }

  lemma {:induction false} PassiveCases(configs: Configs, s: State, i: nat, at: i64)
    requires i < |s.orders| && s.orders[i].request.intent.instrument in configs && s.orders[i].filled == 0
    ensures var o, r := s.orders[i], ExecutePassive(configs, s, i, at);
      match PassiveSweep(configs, s, i, at) {
        case None => r.state == s && r.result != Err(Panicked) && r.result != Err(FillFeedback)
        case Some(sweep) =>
          var k := o.request.intent.instrument;
          && Usable(configs, s, k, at) && SweepFor(configs[k], s.books[k], o, o.request.intent.quantity) == Ok(sweep)
          && r == SettlePassive(s, i, o.request.intent.quantity, sweep, at)
      }
  {
  }

  /** Something would fill before the order's activation time. */
  predicate FillsEarly(configs: Configs, s: State, i: nat, at: i64)
    requires i < |s.orders|
  {
    var swept := PassiveSweep(configs, s, i, at);
    swept.Some? && swept.value.fills != [] && at < s.orders[i].request.activateAt
  }

  lemma {:induction false} EarlyFillRecorded(s: State, i: nat, requested: Quantity, sweep: Sweep, at: i64, after: Counts)
    requires i < |s.orders| && s.orders[i].request.intent.instrument in s.books
    requires sweep.fills != [] && at < s.orders[i].request.activateAt
    requires Consume(ConsumedOn(s.books[s.orders[i].request.intent.instrument], s.orders[i].request.intent.side), sweep.fills) == Ok(after)
    ensures var r := SettlePassive(s, i, requested, sweep, at);
      && r.result == Err(FillFeedback) && r.state.orders == s.orders && r.state.reported == s.reported
      && FilledOf(r.state.fills, s.orders[i].id) > FilledOf(s.fills, s.orders[i].id)
  {
    var o := s.orders[i];
    var b := s.books[o.request.intent.instrument];
    var first := sweep.fills[0];
    assert Consume(ConsumedOn(b, o.request.intent.side), [first]).Ok?;
    var added := [BookOne(s, i, first, o.filled + first.quantity.value, at).state.fills[|s.fills|]];
    assert added[..0] == [];
    FilledOfAppend(s.fills, added, o.id);
  }

  lemma {:induction false} EarlyFillBreaksSums(configs: Configs, s: State, i: nat, requested: Quantity, sweep: Sweep, at: i64)
    requires Inv(configs, s) && i < |s.orders| && Usable(configs, s, s.orders[i].request.intent.instrument, at)
    requires s.orders[i].status == Active && requested.value == s.orders[i].request.intent.quantity.value
    requires SweepFor(configs[s.orders[i].request.intent.instrument], s.books[s.orders[i].request.intent.instrument], s.orders[i], requested)
             == Ok(sweep)
    requires sweep.fills != [] && at < s.orders[i].request.activateAt
    ensures var r := SettlePassive(s, i, requested, sweep, at); r.result == Err(FillFeedback) && !Inv(configs, r.state)
  {
    assert OrderOk(configs, s.fills, s.orders[i]);
    var after := SweepBooks(configs, s, i, requested, sweep, at);
    EarlyFillRecorded(s, i, requested, sweep, at, after);
    var t := SettlePassive(s, i, requested, sweep, at).state;
    assert !OrderOk(configs, t.fills, t.orders[i]);
  }

  /** A passive execution keeps the invariant unless something fills early; then its first fill is recorded and
      refused, and the invariant is broken. */
  lemma {:induction false} ExecutePassiveSound(configs: Configs, s: State, i: nat, at: i64)
    requires Inv(configs, s) && i < |s.orders| && s.orders[i].status == Active && s.orders[i].request.policy == DepthUntilExpiry
    ensures var r := ExecutePassive(configs, s, i, at);
      if FillsEarly(configs, s, i, at) then r.result == Err(FillFeedback) && !Inv(configs, r.state)
      else Sound(configs, s, r) && KeepsOthers(s, r.state, i)
  {
    assert OrderOk(configs, s.fills, s.orders[i]);
    PassiveCases(configs, s, i, at);
    var swept := PassiveSweep(configs, s, i, at);
    if FillsEarly(configs, s, i, at) {
      EarlyFillBreaksSums(configs, s, i, s.orders[i].request.intent.quantity, swept.value, at);
    } else if swept.Some? {
      SettlePassiveSound(configs, s, i, s.orders[i].request.intent.quantity, swept.value, at);
    }
  }

  /** An evaluation comes to an order that fills early. */
  predicate EvaluatesEarly(configs: Configs, s: State, k: InstrumentId, at: i64, i: nat)
    decreases |s.orders| - i
  {
    if i >= |s.orders| then false
    else if !WaitsForDepth(s.orders[i], k) then EvaluatesEarly(configs, s, k, at, i + 1)
    else
      var executed := ExecutePassive(configs, s, i, at);
      FillsEarly(configs, s, i, at) || (executed.result.Ok? && EvaluatesEarly(configs, executed.state, k, at, i + 1))
  }

  /** An evaluation fails over a refused fill, and breaks the invariant, exactly when it comes to such an order. */
  lemma {:induction false} EvaluateFromSound(configs: Configs, s: State, k: InstrumentId, at: i64, i: nat)
    requires Inv(configs, s)
    ensures var r := EvaluateFrom(configs, s, k, at, i);
      if EvaluatesEarly(configs, s, k, at, i) then r.result == Err(FillFeedback) && !Inv(configs, r.state)
      else Sound(configs, s, r) && KeepsBefore(s, r.state, i)
    decreases |s.orders| - i
  {
    if i < |s.orders| {
      if !WaitsForDepth(s.orders[i], k) {
        EvaluateFromSound(configs, s, k, at, i + 1);
      } else {
        ExecutePassiveSound(configs, s, i, at);
        var executed := ExecutePassive(configs, s, i, at);
        if executed.result.Ok? {
          EvaluateFromSound(configs, executed.state, k, at, i + 1);
          if !EvaluatesEarly(configs, s, k, at, i) {
            Joins(s, executed.state, EvaluateFrom(configs, executed.state, k, at, i + 1).state, i);
          }
        }
      }
    }
  }

  /** Every order from `i` on that waits for depth on the instrument was active by then. */
  ghost predicate NoneEarly(s: State, k: InstrumentId, at: i64, i: nat) {
    forall j :: i <= j < |s.orders| && WaitsForDepth(s.orders[j], k) ==> s.orders[j].request.activateAt <= at
  }

  /** No evaluation of orders that are all due comes to one that fills early. */
  lemma {:induction false} NoneEvaluatesEarly(configs: Configs, s: State, k: InstrumentId, at: i64, i: nat)
    requires NoneEarly(s, k, at, i)
    ensures !EvaluatesEarly(configs, s, k, at, i)
    decreases |s.orders| - i
  {
    if i < |s.orders| {
      if !WaitsForDepth(s.orders[i], k) {
        NoneEvaluatesEarly(configs, s, k, at, i + 1);
      } else {
        NoneEvaluatesEarly(configs, ExecutePassive(configs, s, i, at).state, k, at, i + 1);
      }
    }
  }

  /** A change to order `i` followed by changes to later ones. */
  lemma {:induction false} Joins(s: State, u: State, t: State, i: nat)
    requires AllClimb(s, u) && KeepsOthers(s, u, i) && AllClimb(u, t) && KeepsBefore(u, t, i + 1)
    ensures AllClimb(s, t) && KeepsBefore(s, t, i)
  {
  }

  // ----------------------------------------------------------------- auctions

  lemma {:induction false} AuctionFromSound(configs: Configs, s: State, e: AuctionEvidence, i: nat)
    requires Inv(configs, s) && e.instrument in configs && Accepts(configs[e.instrument].policy, e.price)
    ensures Inv(configs, AuctionFrom(s, e, i)) && AllClimb(s, AuctionFrom(s, e, i))
    ensures KeepsBefore(s, AuctionFrom(s, e, i), i)
    decreases |s.orders| - i
  {
    if i < |s.orders| {
      if !WaitsForAuction(s.orders[i], e) {
        AuctionFromSound(configs, s, e, i + 1);
      } else {
        var u := AuctionStep(s, e, i);
        AuctionOne(configs, s, e, i);
        AuctionFromSound(configs, u, e, i + 1);
        Joins(s, u, AuctionFrom(u, e, i + 1), i);
      }
    }
  }

  lemma {:induction false} AuctionOne(configs: Configs, s: State, e: AuctionEvidence, i: nat)
    requires Inv(configs, s) && e.instrument in configs && Accepts(configs[e.instrument].policy, e.price)
    requires i < |s.orders| && WaitsForAuction(s.orders[i], e)
    ensures var u := AuctionStep(s, e, i); Inv(configs, u) && AllClimb(s, u) && KeepsOthers(s, u, i)
  {
    assert OrderOk(configs, s.fills, s.orders[i]);
    if Crosses(s.orders[i], e.price) {
      FillWholeKeepsInv(configs, s, i, e.matchTime, e.price, FromAuction(e.price));
    } else {
      StatusSetKeepsInv(configs, s, i, MatchAttempted);
    }
  }
}
