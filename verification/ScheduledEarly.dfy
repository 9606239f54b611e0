/**
 Which evaluations fill an order before its activation time, read off the state before them: the waiting orders take in
 turn from the queue of their side, so what the ones before an order leave it is a number.
 */
module ScheduledEarly {
  import opened Wrappers
  import opened MachineIntegers
  import opened MarketTypes
  import opened Book
  import opened Greedy
  import opened Depth
  import opened Trading
  import opened SideQueue
  import opened ScheduledModel
  import opened ScheduledInvariant
  import opened ScheduledSteps

  /** The units of the displayed queue that an order's limit reaches. */
  function Reach(configs: Configs, s: State, k: InstrumentId, o: Order): nat
    requires k in configs && k in s.books
  {
    Greedy.Total(QueueFor(configs, s, k, o))
  }

  function QueueFor(configs: Configs, s: State, k: InstrumentId, o: Order): seq<nat>
    requires k in configs && k in s.books
  {
    var model, side := configs[k].model, o.request.intent.side;
    Queue(SideLevels(s.books[k].book, side), ConsumedOn(s.books[k], side), model.depthLevels, RuleOf(o, model))
  }

  /** What the waiting orders before index `i` take from one side: each its quantity, as far as its limit reaches. */
  function GoneBefore(configs: Configs, s: State, k: InstrumentId, i: nat, side: OrderSide): nat
    requires k in configs && k in s.books && i <= |s.orders|
  {
    if i == 0 then 0 else
    var gone, o := GoneBefore(configs, s, k, i - 1, side), s.orders[i - 1];
    if WaitsForDepth(o, k) && o.request.intent.side == side
    then GoneAfter(gone, o.request.intent.quantity.value, Reach(configs, s, k, o)) else gone
  }

  predicate TakenAreAccepted(taken: seq<nat>, levels: seq<BookLevel>, index: nat, rule: Rule, policy: PricePolicy) {
    forall n :: 0 <= n < |taken| && index + n < |levels| && taken[n] > 0 ==> AcceptsSlipped(policy, levels[index + n], rule)
  }

  predicate AcceptsSlipped(policy: PricePolicy, level: BookLevel, rule: Rule) {
    Accepts(policy, SlippedPrice(level, rule))
  }

  /** The sweep of order `i` succeeds in its turn: its request is proper, it does not go on to a price out of range, and
      every price it fills at is accepted. */
  predicate SweepsInTurn(configs: Configs, s: State, k: InstrumentId, i: nat)
    requires k in configs && k in s.books && i < |s.orders|
  {
    var o, model := s.orders[i], configs[k].model;
    var side, quantity, rule := o.request.intent.side, o.request.intent.quantity, RuleOf(o, model);
    var levels, queue, gone := SideLevels(s.books[k].book, side), QueueFor(configs, s, k, o), GoneBefore(configs, s, k, i, side);
    && SweepChecks(s.books[k].book, quantity, model.depthLevels, rule)
    && !(Blocked(levels, 0, model.depthLevels, rule) && gone + quantity.value > Reach(configs, s, k, o))
    && TakenAreAccepted(Take(Minus(queue, Take(queue, gone)), quantity.value), levels, 0, rule, configs[k].policy)
  }

  /** Order `i` is not due, and what is left reaches its limit. */
  predicate EarlyInTurn(configs: Configs, s: State, k: InstrumentId, at: i64, i: nat)
    requires k in configs && k in s.books && i < |s.orders|
  {
    var o := s.orders[i];
    WaitsForDepth(o, k) && at < o.request.activateAt && GoneBefore(configs, s, k, i, o.request.intent.side) < Reach(configs, s, k, o)
  }

  /** The orders that fill early in their turn, and those that have no turn or succeed in it. */
  function EarlyOnes(configs: Configs, s: State, k: InstrumentId, at: i64): nat -> bool
    requires k in configs && k in s.books
  {
    (n: nat) => n < |s.orders| && EarlyInTurn(configs, s, k, at, n)
  }

  function PassingOnes(configs: Configs, s: State, k: InstrumentId): nat -> bool
    requires k in configs && k in s.books
  {
    (n: nat) => n < |s.orders| && (WaitsForDepth(s.orders[n], k) ==> SweepsInTurn(configs, s, k, n))
  }

  ghost predicate AllPass(passes: nat -> bool, from: nat, to: nat) {
    forall n :: from <= n <= to ==> passes(n)
  }

  /** Some index from `from` on is a hit, and all up to it pass. */
  ghost predicate ComesTo(hit: nat -> bool, passes: nat -> bool, from: nat) {
    exists n :: from <= n && hit(n) && AllPass(passes, from, n)
  }

  lemma {:induction false} ComesToNext(hit: nat -> bool, passes: nat -> bool, from: nat)
    ensures ComesTo(hit, passes, from) <==> passes(from) && (hit(from) || ComesTo(hit, passes, from + 1))
  {
    if ComesTo(hit, passes, from) {
      var n :| from <= n && hit(n) && AllPass(passes, from, n);
      assert n > from ==> AllPass(passes, from + 1, n);
    }
    if passes(from) && hit(from) {
      assert AllPass(passes, from, from);
    } else if passes(from) && ComesTo(hit, passes, from + 1) {
      var n :| from + 1 <= n && hit(n) && AllPass(passes, from + 1, n);
      assert AllPass(passes, from, n);
    }
  }

  // ---------------------------------------------------------- one order in turn

  ghost predicate SideGone(configs: Configs, s: State, t: State, k: InstrumentId, i: nat, side: OrderSide)
    requires k in configs && k in s.books && k in t.books && i <= |s.orders|
  {
    Gone(SideLevels(s.books[k].book, side), ConsumedOn(s.books[k], side), ConsumedOn(t.books[k], side), configs[k].model.depthLevels,
         Rule(side, Market, configs[k].model.delta), GoneBefore(configs, s, k, i, side))
  }

  /** `t` is `s` after the waiting orders before `i` had their turn. */
  ghost predicate Turned(configs: Configs, s: State, t: State, k: InstrumentId, i: nat)
    requires k in configs && k in s.books
  {
    && i <= |s.orders| == |t.orders| && (forall j :: i <= j < |s.orders| ==> t.orders[j] == s.orders[j]) && t.trading == s.trading
    && k in t.books && t.books[k] == s.books[k].(consumedBids := t.books[k].consumedBids, consumedAsks := t.books[k].consumedAsks)
    && SideGone(configs, s, t, k, i, Buy) && SideGone(configs, s, t, k, i, Sell)
  }

  lemma {:induction false} PricesTaken(fills: seq<LevelFill>, levels: seq<BookLevel>, taken: seq<nat>, index: nat, unit: QuantityUnit,
                                       rule: Rule, policy: PricePolicy)
    requires FillsTake(fills, levels, taken, index, unit, rule)
    ensures (forall n :: 0 <= n < |fills| ==> Accepts(policy, fills[n].price)) <==> TakenAreAccepted(taken, levels, index, rule, policy)
  {
    if taken != [] {
      var rest := if taken[0] == 0 then fills else fills[1..];
      PricesTaken(rest, levels, taken[1..], index + 1, unit, rule, policy);
      TakenAreAcceptedNext(taken, levels, index, rule, policy);
      if taken[0] > 0 {
        assert fills == [fills[0]] + rest;
        assert AcceptsSlipped(policy, levels[index], rule) == Accepts(policy, fills[0].price);
      }
    }
  }

  lemma {:induction false} TakenAreAcceptedNext(taken: seq<nat>, levels: seq<BookLevel>, index: nat, rule: Rule, policy: PricePolicy)
    requires taken != []
    ensures TakenAreAccepted(taken, levels, index, rule, policy)
       <==> (taken[0] > 0 && index < |levels| ==> AcceptsSlipped(policy, levels[index], rule))
            && TakenAreAccepted(taken[1..], levels, index + 1, rule, policy)
  {
    if TakenAreAccepted(taken, levels, index, rule, policy) {
      forall n | 0 <= n < |taken[1..]| && index + 1 + n < |levels| && taken[1..][n] > 0
        ensures AcceptsSlipped(policy, levels[index + 1 + n], rule)
      {
        assert taken[n + 1] == taken[1..][n] && levels[index + (n + 1)] == levels[index + 1 + n];
      }
    }
    if (taken[0] > 0 && index < |levels| ==> AcceptsSlipped(policy, levels[index], rule))
       && TakenAreAccepted(taken[1..], levels, index + 1, rule, policy)
    {
      forall n | 0 <= n < |taken| && index + n < |levels| && taken[n] > 0 ensures AcceptsSlipped(policy, levels[index + n], rule) {
        if n > 0 {
          assert taken[n] == taken[1..][n - 1] && levels[index + n] == levels[index + 1 + (n - 1)];
        }
      }
    }
  }

  /** In its turn an order's sweep is what the state before all of them says. */
  lemma {:induction false} SweepInTurnExactly(configs: Configs, s: State, t: State, k: InstrumentId, i: nat) returns (after: Counts)
    requires k in configs && k in s.books && Turned(configs, s, t, k, i) && Inv(configs, t)
    requires i < |s.orders| && WaitsForDepth(s.orders[i], k)
    ensures var o := s.orders[i];
      var side, gone, reach := o.request.intent.side, GoneBefore(configs, s, k, i, o.request.intent.side), Reach(configs, s, k, o);
      var r := SweepFor(configs[k], t.books[k], o, o.request.intent.quantity);
      && (r.Ok? <==> SweepsInTurn(configs, s, k, i))
      && (r.Ok? ==>
            && (r.value.fills != [] <==> gone < reach)
            && Consume(ConsumedOn(t.books[k], side), r.value.fills) == Ok(after)
            && Gone(SideLevels(s.books[k].book, side), ConsumedOn(s.books[k], side), after, configs[k].model.depthLevels,
                    Rule(side, Market, configs[k].model.delta), GoneAfter(gone, o.request.intent.quantity.value, reach)))
  {
    var o, model := s.orders[i], configs[k].model;
    var side, quantity, rule := o.request.intent.side, o.request.intent.quantity, RuleOf(o, model);
    var levels, consumed, now := SideLevels(s.books[k].book, side), ConsumedOn(s.books[k], side), ConsumedOn(t.books[k], side);
    var gone := GoneBefore(configs, s, k, i, side);
    assert BookOk(configs, t, k);
    assert SideOk(t.fills, t.published[k], k, t.books[k], side);
    assert SideGone(configs, s, t, k, i, side);
    after := now;
    if SweepChecks(s.books[k].book, quantity, model.depthLevels, rule) {
      var next := SweepInTurn(levels, consumed, now, model.depthLevels, rule, gone, quantity.value, quantity.unit);
      var swept := SweepFrom(levels, now, 0, model.depthLevels, quantity.value, quantity.unit, rule, []);
      if swept.Ok? {
        after := next;
        QueueLeft(levels, consumed, now, model.depthLevels, rule, gone);
        PricesTaken(swept.value, levels, Take(Queue(levels, now, model.depthLevels, rule), quantity.value), 0, quantity.unit, rule,
                    configs[k].policy);
      }
    }
  }

  lemma {:induction false} SkipTurns(configs: Configs, s: State, t: State, k: InstrumentId, i: nat)
    requires k in configs && k in s.books && Turned(configs, s, t, k, i) && i < |s.orders| && !WaitsForDepth(s.orders[i], k)
    ensures Turned(configs, s, t, k, i + 1)
  {
    assert SideGone(configs, s, t, k, i + 1, Buy) == SideGone(configs, s, t, k, i, Buy);
    assert SideGone(configs, s, t, k, i + 1, Sell) == SideGone(configs, s, t, k, i, Sell);
  }

  /** An order that has had its turn, and did not fill early. */
  lemma {:induction false} ExecuteTurns(configs: Configs, s: State, t: State, k: InstrumentId, at: i64, i: nat, sweep: Sweep, after: Counts)
    requires k in configs && k in s.books && Turned(configs, s, t, k, i) && i < |s.orders| && WaitsForDepth(s.orders[i], k)
    requires var o := s.orders[i];
      var side := o.request.intent.side;
      && (sweep.fills == [] || o.request.activateAt <= at)
      && Consume(ConsumedOn(t.books[k], side), sweep.fills) == Ok(after)
      && Gone(SideLevels(s.books[k].book, side), ConsumedOn(s.books[k], side), after, configs[k].model.depthLevels,
              Rule(side, Market, configs[k].model.delta),
              GoneAfter(GoneBefore(configs, s, k, i, side), o.request.intent.quantity.value, Reach(configs, s, k, o)))
    ensures var r := SettlePassive(t, i, s.orders[i].request.intent.quantity, sweep, at);
      r.result.Ok? && Turned(configs, s, r.state, k, i + 1)
  {
    var o := s.orders[i];
    var side := o.request.intent.side;
    BookFillsMeaning(t, i, sweep.fills, o.filled, at, after);
    var u := SettlePassive(t, i, o.request.intent.quantity, sweep, at).state;
    assert u.books == t.books[k := WithConsumedOn(t.books[k], side, after)];
    assert SideGone(configs, s, u, k, i + 1, side);
    var other := if side == Buy then Sell else Buy;
    assert SideGone(configs, s, t, k, i, other);
    assert SideGone(configs, s, u, k, i + 1, other);
  }

  // ------------------------------------------------------------- main results

  lemma {:induction false} NotReadyNeverEarly(configs: Configs, s: State, k: InstrumentId, at: i64, i: nat)
    requires !Ready(configs, s, k, at) && Inv(configs, s)
    ensures !EvaluatesEarly(configs, s, k, at, i)
    decreases |s.orders| - i
  {
    if i < |s.orders| {
      if WaitsForDepth(s.orders[i], k) {
        assert OrderOk(configs, s.fills, s.orders[i]);
        PassiveCases(configs, s, i, at);
      }
      NotReadyNeverEarly(configs, s, k, at, i + 1);
    }
  }

  /** From index `from` on some order fills early in its turn, and no sweep up to its own fails. */
  ghost predicate SomeEarly(configs: Configs, s: State, k: InstrumentId, at: i64, from: nat)
    requires k in configs && k in s.books
  {
    ComesTo(EarlyOnes(configs, s, k, at), PassingOnes(configs, s, k), from)
  }

  lemma {:induction false} EarlyFrom(configs: Configs, s: State, t: State, k: InstrumentId, at: i64, i: nat)
    requires Ready(configs, s, k, at) && Inv(configs, t) && Turned(configs, s, t, k, i)
    ensures EvaluatesEarly(configs, t, k, at, i) <==> SomeEarly(configs, s, k, at, i)
    decreases |s.orders| - i
  {
    if i < |s.orders| {
      ComesToNext(EarlyOnes(configs, s, k, at), PassingOnes(configs, s, k), i);
      if !WaitsForDepth(s.orders[i], k) {
        SkipTurns(configs, s, t, k, i);
        EarlyFrom(configs, s, t, k, at, i + 1);
      } else {
        TurnExactly(configs, s, t, k, at, i);
        if SweepsInTurn(configs, s, k, i) && !EarlyInTurn(configs, s, k, at, i) {
          EarlyFrom(configs, s, ExecutePassive(configs, t, i, at).state, k, at, i + 1);
        }
      }
    }
  }

  /** What an order does in its turn. */
  lemma {:induction false} TurnExactly(configs: Configs, s: State, t: State, k: InstrumentId, at: i64, i: nat)
    requires Ready(configs, s, k, at) && Inv(configs, t) && Turned(configs, s, t, k, i)
    requires i < |s.orders| && WaitsForDepth(s.orders[i], k)
    ensures FillsEarly(configs, t, i, at) <==> SweepsInTurn(configs, s, k, i) && EarlyInTurn(configs, s, k, at, i)
    ensures var r := ExecutePassive(configs, t, i, at);
      if !SweepsInTurn(configs, s, k, i) then r.result.Err?
      else !EarlyInTurn(configs, s, k, at, i) ==> r.result.Ok? && Inv(configs, r.state) && Turned(configs, s, r.state, k, i + 1)
  {
    var o := s.orders[i];
    var after := SweepInTurnExactly(configs, s, t, k, i);
    assert OrderOk(configs, t.fills, t.orders[i]);
    var swept := SweepFor(configs[k], t.books[k], o, o.request.intent.quantity);
    ReadyPassive(configs, t, i, at);
    if swept.Ok? && !EarlyInTurn(configs, s, k, at, i) {
      ExecuteTurns(configs, s, t, k, at, i, swept.value, after);
      ExecutePassiveSound(configs, t, i, at);
    }
  }

  lemma {:induction false} ReadyPassive(configs: Configs, t: State, i: nat, at: i64)
    requires i < |t.orders| && Ready(configs, t, t.orders[i].request.intent.instrument, at) && t.orders[i].filled == 0
    ensures var o := t.orders[i];
      var k := o.request.intent.instrument;
      match SweepFor(configs[k], t.books[k], o, o.request.intent.quantity) {
        case Err(_) => PassiveSweep(configs, t, i, at) == None && ExecutePassive(configs, t, i, at).result.Err?
        case Ok(sweep) =>
          && PassiveSweep(configs, t, i, at) == Some(sweep)
          && ExecutePassive(configs, t, i, at) == SettlePassive(t, i, o.request.intent.quantity, sweep, at)
      }
  {
  }

  /** An evaluation fills an order early exactly when there is a fresh book and some waiting order is not due, what the
      waiting orders before it leave reaches its limit, and no sweep up to its own fails. */
  lemma {:induction false} EvaluatesEarlyExactly(configs: Configs, s: State, k: InstrumentId, at: i64)
    requires Inv(configs, s)
    ensures EvaluatesEarly(configs, s, k, at, 0) <==> Ready(configs, s, k, at) && SomeEarly(configs, s, k, at, 0)
  {
    if Ready(configs, s, k, at) {
      NothingGone(configs, s, k, Buy);
      NothingGone(configs, s, k, Sell);
      EarlyFrom(configs, s, s, k, at, 0);
    } else {
      NotReadyNeverEarly(configs, s, k, at, 0);
    }
  }

  lemma {:induction false} NothingGone(configs: Configs, s: State, k: InstrumentId, side: OrderSide)
    requires k in configs && k in s.books
    ensures SideGone(configs, s, s, k, 0, side)
  {
    var levels, consumed, model := SideLevels(s.books[k].book, side), ConsumedOn(s.books[k], side), configs[k].model;
    TakeNone(Queue(levels, consumed, model.depthLevels, Rule(side, Market, model.delta)));
    OffersBounds(levels, consumed, 0, model.depthLevels, Rule(side, Market, model.delta));
  }
}
