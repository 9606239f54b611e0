/** Sweeping visible depth: a marketable quantity taken level by level from what nobody has consumed. */
module Depth {
  import opened Wrappers
  import opened MachineIntegers
  import opened MarketTypes
  import opened Book
  import opened Greedy

  datatype LevelFill = LevelFill(levelIndex: nat, price: i128, quantity: Quantity)

  datatype Sweep = Sweep(fills: seq<LevelFill>, requested: Quantity, filled: nat)

  datatype DepthError =
    | InvalidDepthLevels(levels: int)
    | InvalidAdversePriceDelta
    | ConsumedQuantityExceedsDisplayed(levelIndex: nat)
    | DepthUnitMismatch(expected: QuantityUnit, actual: QuantityUnit)
    | QuantityOverflow

  /** What decides at which price a level fills and whether it fills at all. */
  datatype Rule = Rule(side: OrderSide, orderType: OrderType, delta: i128)

  function AdversePrice(price: int, rule: Rule): Result<i128, DepthError> {
    var adjusted := if rule.side == Buy then price + rule.delta else price - rule.delta;
    if IsI128(adjusted) then Ok(adjusted) else Err(InvalidAdversePriceDelta)
  }

  predicate IsMarketable(price: int, rule: Rule) {
    match rule.orderType
    case Market => true
    case Limit(limit) => if rule.side == Buy then price <= limit else price >= limit
  }

  function SideLevels(book: Snapshot, side: OrderSide): (levels: seq<BookLevel>)
    ensures |levels| <= BOOK_DEPTH
  {
    Levels((if side == Buy then book.asks else book.bids).slots)
  }

  // ------------------------------------------------------------------ sweeping

  /** From level `index` on, adding to the fills already `done`. */
  function SweepFrom(levels: seq<BookLevel>, consumed: seq<nat>, index: nat, depth: nat, remaining: nat, unit: QuantityUnit,
                     rule: Rule, done: seq<LevelFill>): Result<seq<LevelFill>, DepthError>
    requires |levels| <= |consumed| && IsU64(remaining)
    decreases |levels| - index
  {
    if index >= |levels| || index >= depth || remaining == 0 then Ok(done) else
    var price :- AdversePrice(levels[index].price, rule);
    if !IsMarketable(price, rule) then Ok(done)
    else if levels[index].displayed.value < consumed[index] then Err(ConsumedQuantityExceedsDisplayed(index + 1))
    else
      var available := levels[index].displayed.value - consumed[index];
      var value := if remaining <= available then remaining else available;
      var filled := if value == 0 then [] else [LevelFill(index + 1, price, Quantity(value, unit))];
      SweepFrom(levels, consumed, index + 1, depth, remaining - value, unit, rule, done + filled)
  }

  predicate SweepChecks(book: Snapshot, requested: Quantity, depth: int, rule: Rule) {
    1 <= depth <= BOOK_DEPTH && rule.delta >= 0 && (BookUnit(book) == None || BookUnit(book).value == requested.unit)
  }

  function SweepError(book: Snapshot, requested: Quantity, depth: int, rule: Rule): DepthError
    requires !SweepChecks(book, requested, depth, rule)
  {
    if !(1 <= depth <= BOOK_DEPTH) then InvalidDepthLevels(depth)
    else if rule.delta < 0 then InvalidAdversePriceDelta
    else DepthUnitMismatch(requested.unit, BookUnit(book).value)
  }

  function Filled(fills: seq<LevelFill>): nat {
    if fills == [] then 0 else fills[0].quantity.value + Filled(fills[1..])
  }

  function SweepDepth(book: Snapshot, requested: Quantity, depth: int, rule: Rule, consumed: seq<nat>): Result<Sweep, DepthError>
    requires |SideLevels(book, rule.side)| <= |consumed|
  {
    if !SweepChecks(book, requested, depth, rule) then Err(SweepError(book, requested, depth, rule)) else
    var fills :- SweepFrom(SideLevels(book, rule.side), consumed, 0, depth, requested.value, requested.unit, rule, []);
    Ok(Sweep(fills, requested, Filled(fills)))
  }

  /** The loop of the source. */
  method SweepMarketableDepth(book: Snapshot, requested: Quantity, depth: int, rule: Rule, consumed: seq<nat>)
    returns (r: Result<Sweep, DepthError>)
    requires |SideLevels(book, rule.side)| <= |consumed|
    ensures r == SweepDepth(book, requested, depth, rule, consumed)
  {
    if !(1 <= depth <= BOOK_DEPTH) {
      return Err(InvalidDepthLevels(depth));
    }
    if rule.delta < 0 {
      return Err(InvalidAdversePriceDelta);
    }
    var levels := SideLevels(book, rule.side);
    if BookUnit(book).Some? && BookUnit(book).value != requested.unit {
      return Err(DepthUnitMismatch(requested.unit, BookUnit(book).value));
    }
    r := SweepLoop(levels, consumed, depth, requested, rule);
  }

  method SweepLoop(levels: seq<BookLevel>, consumed: seq<nat>, depth: nat, requested: Quantity, rule: Rule)
    returns (r: Result<Sweep, DepthError>)
    requires |levels| <= |consumed|
    ensures match SweepFrom(levels, consumed, 0, depth, requested.value, requested.unit, rule, [])
      case Ok(fills) => r == Ok(Sweep(fills, requested, Filled(fills)))
      case Err(e) => r == Err(e)
  {
    var remaining: nat := requested.value;
    var fills := [];
    var index := 0;
    ghost var whole := SweepFrom(levels, consumed, 0, depth, requested.value, requested.unit, rule, []);
    while index < |levels| && index < depth
      invariant 0 <= index <= |levels| && index <= depth && IsU64(remaining)
      invariant remaining + Filled(fills) == requested.value
      invariant whole
             == SweepFrom(levels, consumed, index, depth, remaining, requested.unit, rule, fills)
    {
      if remaining == 0 {
        break;
      }
      var price :- AdversePrice(levels[index].price, rule);
      if !IsMarketable(price, rule) {
        break;
      }
      if levels[index].displayed.value < consumed[index] {
        return Err(ConsumedQuantityExceedsDisplayed(index + 1));
      }
      var available := levels[index].displayed.value - consumed[index];
      var value := if remaining <= available then remaining else available;
      var filled := if value == 0 then [] else [LevelFill(index + 1, price, Quantity(value, requested.unit))];
      FilledAdds(fills, filled);
      fills, remaining, index := fills + filled, remaining - value, index + 1;
    }
    return Ok(Sweep(fills, requested, requested.value - remaining));
  }

  lemma {:induction false} FilledAdds(a: seq<LevelFill>, b: seq<LevelFill>)
    ensures Filled(a + b) == Filled(a) + Filled(b)
  {
    if a == [] {
      assert a + b == b;
    } else {
      assert (a + b)[1..] == a[1..] + b;
      FilledAdds(a[1..], b);
    }
  }

  // -------------------------------------------- the sweep is a greedy selection

  /** What the marketable visible levels from `index` on still offer, best price first. */
  function Offers(levels: seq<BookLevel>, consumed: seq<nat>, index: nat, depth: nat, rule: Rule): seq<nat>
    requires |levels| <= |consumed|
    decreases |levels| - index
  {
    if index >= |levels| || index >= depth || !Reaches(levels[index], rule) then []
    else [Left(levels[index], consumed[index])] + Offers(levels, consumed, index + 1, depth, rule)
  }

  predicate Reaches(level: BookLevel, rule: Rule) {
    match AdversePrice(level.price, rule)
    case Ok(price) => IsMarketable(price, rule)
    case Err(_) => false
  }

  function Left(level: BookLevel, consumed: nat): u64 {
    if consumed <= level.displayed.value then level.displayed.value - consumed else 0
  }

  /** The price a level fills at, before the range check. */
  function SlippedPrice(level: BookLevel, rule: Rule): int {
    if rule.side == Buy then level.price + rule.delta else level.price - rule.delta
  }

  /** `fills` takes exactly the quantities `taken` from the levels from `index` on. */
  ghost predicate FillsTake(fills: seq<LevelFill>, levels: seq<BookLevel>, taken: seq<nat>, index: nat, unit: QuantityUnit, rule: Rule) {
    if taken == [] then fills == []
    else if taken[0] == 0 then FillsTake(fills, levels, taken[1..], index + 1, unit, rule)
    else
      && fills != [] && index < |levels|
      && fills[0].levelIndex == index + 1 && fills[0].price == SlippedPrice(levels[index], rule)
      && fills[0].quantity.value == taken[0] && fills[0].quantity.unit == unit
      && FillsTake(fills[1..], levels, taken[1..], index + 1, unit, rule)
  }

  /** A successful sweep takes greedily from what the marketable levels offer. */
  lemma {:induction false} SweepIsGreedy(levels: seq<BookLevel>, consumed: seq<nat>, index: nat, depth: nat, remaining: nat,
                                         unit: QuantityUnit, rule: Rule, done: seq<LevelFill>) returns (fills: seq<LevelFill>)
    requires |levels| <= |consumed| && IsU64(remaining)
    requires SweepFrom(levels, consumed, index, depth, remaining, unit, rule, done).Ok?
    ensures SweepFrom(levels, consumed, index, depth, remaining, unit, rule, done).value == done + fills
    ensures FillsTake(fills, levels, Take(Offers(levels, consumed, index, depth, rule), remaining), index, unit, rule)
    decreases |levels| - index
  {
    var offers := Offers(levels, consumed, index, depth, rule);
    fills := [];
    assert done + [] == done;
    if remaining == 0 {
      TakeNothing(levels, offers, index, unit, rule);
    } else if offers != [] {
      var first := Min(remaining, offers[0]);
      var filled := if first == 0 then []
        else [LevelFill(index + 1, AdversePrice(levels[index].price, rule).value, Quantity(first, unit))];
      var rest := SweepIsGreedy(levels, consumed, index + 1, depth, remaining - first, unit, rule, done + filled);
      fills := filled + rest;
      TakeHead(offers, remaining);
      assert offers[1..] == Offers(levels, consumed, index + 1, depth, rule);
      assert (done + filled) + rest == done + fills;
      assert if first == 0 then fills == rest else fills[1..] == rest;
    }
  }

  lemma {:induction false} TakeNothing(levels: seq<BookLevel>, offers: seq<nat>, index: nat, unit: QuantityUnit, rule: Rule)
    ensures FillsTake([], levels, Take(offers, 0), index, unit, rule)
  {
    if offers != [] {
      TakeHead(offers, 0);
      TakeNothing(levels, offers[1..], index + 1, unit, rule);
    }
  }

  /** A sweep succeeds unless it reaches a level whose price overflows or that is over-consumed. */
  lemma {:induction false} SweepSucceeds(levels: seq<BookLevel>, consumed: seq<nat>, index: nat, depth: nat, remaining: nat,
                                         unit: QuantityUnit, rule: Rule, done: seq<LevelFill>)
    requires WithinDisplayed(levels, consumed) && IsU64(remaining)
    requires forall i :: 0 <= i < |levels| ==> AdversePrice(levels[i].price, rule).Ok?
    ensures SweepFrom(levels, consumed, index, depth, remaining, unit, rule, done).Ok?
    decreases |levels| - index
  {
    if index < |levels| && index < depth && remaining > 0 && Reaches(levels[index], rule) {
      var value := Min(remaining, Left(levels[index], consumed[index]));
      var filled := if value == 0 then []
        else [LevelFill(index + 1, AdversePrice(levels[index].price, rule).value, Quantity(value, unit))];
      SweepSucceeds(levels, consumed, index + 1, depth, remaining - value, unit, rule, done + filled);
    }
  }

  ghost predicate WithinDisplayed(levels: seq<BookLevel>, consumed: seq<nat>) {
    |levels| <= |consumed| && forall i :: 0 <= i < |levels| ==> consumed[i] <= levels[i].displayed.value
  }

  // ------------------------------------------------------------- consumption

  /** One count per slot. */
  type Counts = c: seq<nat> | |c| == BOOK_DEPTH witness [0, 0, 0, 0, 0]

  /** Adds each fill to the consumption of its level. */
  function Consume(consumed: seq<nat>, fills: seq<LevelFill>): (r: Result<seq<nat>, DepthError>)
    ensures r.Ok? ==> |r.value| == |consumed|
    decreases fills
  {
    if fills == [] then Ok(consumed) else
    var level := fills[0].levelIndex - 1;
    if !(0 <= level < |consumed|) || !IsU64(consumed[level] + fills[0].quantity.value) then Err(QuantityOverflow)
    else Consume(consumed[level := consumed[level] + fills[0].quantity.value], fills[1..])
  }

  /** `after` is `consumed` plus `taken` from level `index` on. */
  ghost predicate Adds(consumed: seq<nat>, taken: seq<nat>, index: nat, after: seq<nat>) {
    && |after| == |consumed| && index + |taken| <= |consumed|
    && forall i :: 0 <= i < |consumed| ==>
         after[i] == consumed[i] + (if index <= i < index + |taken| then taken[i - index] else 0)
  }

  /** Consuming a sweep's fills adds what it took, and never overflows. */
  lemma {:induction false} ConsumeAdds(consumed: seq<nat>, fills: seq<LevelFill>, levels: seq<BookLevel>, taken: seq<nat>, index: nat,
                                       unit: QuantityUnit, rule: Rule)
    requires FillsTake(fills, levels, taken, index, unit, rule) && index + |taken| <= |consumed|
    requires forall i :: 0 <= i < |taken| ==> IsU64(consumed[index + i] + taken[i])
    ensures Consume(consumed, fills).Ok? && Adds(consumed, taken, index, Consume(consumed, fills).value)
    ensures Filled(fills) == Greedy.Total(taken)
    decreases taken
  {
    if taken != [] {
      if taken[0] == 0 {
        ConsumeAdds(consumed, fills, levels, taken[1..], index + 1, unit, rule);
      } else {
        var next := consumed[index := consumed[index] + taken[0]];
        ConsumeAdds(next, fills[1..], levels, taken[1..], index + 1, unit, rule);
      }
    }
  }

  function TakenFromLevel(levels: seq<LevelFill>, level: nat): nat {
    if levels == [] then 0
    else (if levels[0].levelIndex == level then levels[0].quantity.value else 0) + TakenFromLevel(levels[1..], level)
  }

  lemma {:induction false} ConsumeTakes(consumed: seq<nat>, levels: seq<LevelFill>, level: nat)
    requires Consume(consumed, levels).Ok? && 1 <= level <= |consumed|
    ensures Consume(consumed, levels).value[level - 1] == consumed[level - 1] + TakenFromLevel(levels, level)
    decreases levels
  {
    if levels != [] {
      var i := levels[0].levelIndex - 1;
      ConsumeTakes(consumed[i := consumed[i] + levels[0].quantity.value], levels[1..], level);
    }
  }

  // ------------------------------------------------------------ main results

  /** From level `index` on, `after` is `consumed` plus what was taken. */
  ghost predicate AddsFrom(consumed: seq<nat>, taken: seq<nat>, index: nat, after: seq<nat>) {
    |after| == |consumed| && forall i :: index <= i < |consumed| ==> after[i] == consumed[i] + TakenAt(taken, i - index)
  }

  function TakenAt(taken: seq<nat>, i: int): nat {
    if 0 <= i < |taken| then taken[i] else 0
  }

  lemma {:induction false} AddsFromNext(consumed: seq<nat>, taken: seq<nat>, index: nat, after: seq<nat>)
    requires AddsFrom(consumed, taken, index, after) && taken != []
    ensures AddsFrom(consumed, taken[1..], index + 1, after)
  {
    forall i | index + 1 <= i < |consumed| ensures after[i] == consumed[i] + TakenAt(taken[1..], i - (index + 1)) {
      assert TakenAt(taken, i - index) == TakenAt(taken[1..], i - (index + 1));
    }
  }

  lemma {:induction false} OffersAfter(levels: seq<BookLevel>, consumed: seq<nat>, after: seq<nat>, index: nat, depth: nat,
                                       quantity: nat, rule: Rule)
    requires |levels| <= |consumed| && AddsFrom(consumed, Take(Offers(levels, consumed, index, depth, rule), quantity), index, after)
    ensures var offers := Offers(levels, consumed, index, depth, rule);
      Offers(levels, after, index, depth, rule) == Minus(offers, Take(offers, quantity))
    decreases |levels| - index
  {
    var offers := Offers(levels, consumed, index, depth, rule);
    if offers != [] {
      TakeHead(offers, quantity);
      var taken := Take(offers, quantity);
      AddsFromNext(consumed, taken, index, after);
      OffersAfter(levels, consumed, after, index + 1, depth, quantity - Min(quantity, offers[0]), rule);
      assert after[index] == consumed[index] + taken[0];
    }
  }

  lemma {:induction false} OffersBounds(levels: seq<BookLevel>, consumed: seq<nat>, index: nat, depth: nat, rule: Rule)
    requires |levels| <= |consumed|
    ensures var offers := Offers(levels, consumed, index, depth, rule);
      (offers == [] || index + |offers| <= |levels|)
      && forall i :: 0 <= i < |offers| ==> offers[i] == Left(levels[index + i], consumed[index + i])
    decreases |levels| - index
  {
    if Offers(levels, consumed, index, depth, rule) != [] {
      OffersBounds(levels, consumed, index + 1, depth, rule);
    }
  }

  /** A whole sweep, its consumption included. */
  lemma {:induction false} SweepConsumes(levels: seq<BookLevel>, consumed: seq<nat>, depth: nat, quantity: nat, unit: QuantityUnit, rule: Rule)
    returns (after: seq<nat>)
    requires |levels| <= |consumed| && IsU64(quantity) && forall c :: c in consumed ==> IsU64(c)
    requires SweepFrom(levels, consumed, 0, depth, quantity, unit, rule, []).Ok?
    ensures var fills, offers := SweepFrom(levels, consumed, 0, depth, quantity, unit, rule, []).value, Offers(levels, consumed, 0, depth, rule);
      && Consume(consumed, fills) == Ok(after)
      && Adds(consumed, Take(offers, quantity), 0, after)
      && Filled(fills) == Min(quantity, Greedy.Total(offers))
      && FillsTake(fills, levels, Take(offers, quantity), 0, unit, rule)
  {
    var offers := Offers(levels, consumed, 0, depth, rule);
    var fills := SweepIsGreedy(levels, consumed, 0, depth, quantity, unit, rule, []);
    assert [] + fills == fills;
    OffersBounds(levels, consumed, 0, depth, rule);
    TakeWithin(offers, quantity);
    TakeTotal(offers, quantity);
    ConsumeAdds(consumed, fills, levels, Take(offers, quantity), 0, unit, rule);
    after := Consume(consumed, fills).value;
  }

  /** How much a sweep can take before it meets a level that fails it: one whose price is out of range, or one
      from which more was consumed than it displays. `None` when it meets none. */
  function FailsAfter(levels: seq<BookLevel>, consumed: seq<nat>, index: nat, depth: nat, rule: Rule): Option<nat>
    requires |levels| <= |consumed|
    decreases |levels| - index
  {
    if index >= |levels| || index >= depth then None
    else match AdversePrice(levels[index].price, rule)
      case Err(_) => Some(0)
      case Ok(price) =>
        if !IsMarketable(price, rule) then None
        else if levels[index].displayed.value < consumed[index] then Some(0)
        else match FailsAfter(levels, consumed, index + 1, depth, rule)
          case None => None
          case Some(later) => Some(Left(levels[index], consumed[index]) + later)
  }

  predicate EndsBefore(quantity: nat, bound: Option<nat>) {
    bound.Some? ==> quantity <= bound.value
  }

  /** A sweep succeeds exactly when it is complete before such a level. */
  lemma {:induction false} SucceedsExactly(levels: seq<BookLevel>, consumed: seq<nat>, index: nat, depth: nat, remaining: nat,
                                           unit: QuantityUnit, rule: Rule, done: seq<LevelFill>)
    requires |levels| <= |consumed| && IsU64(remaining)
    ensures SweepFrom(levels, consumed, index, depth, remaining, unit, rule, done).Ok?
       <==> EndsBefore(remaining, FailsAfter(levels, consumed, index, depth, rule))
    decreases |levels| - index
  {
    if index < |levels| && index < depth && remaining > 0 && Reaches(levels[index], rule) && consumed[index] <= levels[index].displayed.value {
      var value := Min(remaining, Left(levels[index], consumed[index]));
      SucceedsExactly(levels, consumed, index + 1, depth, remaining - value, unit, rule, done + OneFill(levels, index, value, unit, rule));
    }
  }

  function OneFill(levels: seq<BookLevel>, index: nat, value: u64, unit: QuantityUnit, rule: Rule): seq<LevelFill>
    requires index < |levels| && Reaches(levels[index], rule)
  {
    if value == 0 then [] else [LevelFill(index + 1, AdversePrice(levels[index].price, rule).value, Quantity(value, unit))]
  }

  /** What was taken brings the failing level that much nearer. */
  lemma {:induction false} FailsAfterTaking(levels: seq<BookLevel>, consumed: seq<nat>, after: seq<nat>, index: nat, depth: nat,
                                            quantity: nat, rule: Rule)
    requires |levels| <= |consumed| && EndsBefore(quantity, FailsAfter(levels, consumed, index, depth, rule))
    requires AddsFrom(consumed, Take(Offers(levels, consumed, index, depth, rule), quantity), index, after)
    ensures var bound := FailsAfter(levels, consumed, index, depth, rule);
      FailsAfter(levels, after, index, depth, rule) == match bound case None => None case Some(n) => Some(n - quantity)
    decreases |levels| - index
  {
    var offers := Offers(levels, consumed, index, depth, rule);
    if offers != [] {
      TakeHead(offers, quantity);
      var taken := Take(offers, quantity);
      AddsFromNext(consumed, taken, index, after);
      assert after[index] == consumed[index] + taken[0];
      if consumed[index] <= levels[index].displayed.value {
        FailsAfterTaking(levels, consumed, after, index + 1, depth, quantity - Min(quantity, offers[0]), rule);
      }
    }
  }

  /** One sweep, its consumption applied, and another on what is left. */
  predicate BothSweep(levels: seq<BookLevel>, consumed: seq<nat>, depth: nat, q1: nat, q2: nat, unit: QuantityUnit, rule: Rule)
    requires |levels| <= |consumed| && IsU64(q1 + q2)
  {
    var first := SweepFrom(levels, consumed, 0, depth, q1, unit, rule, []);
    first.Ok? && Consume(consumed, first.value).Ok?
    && SweepFrom(levels, Consume(consumed, first.value).value, 0, depth, q2, unit, rule, []).Ok?
  }

  /** Sweeping `q1`, applying it and sweeping `q2` succeeds exactly when one sweep of both does, and leaves every level as
      that one does. */
  lemma {:induction false} SweepsAdd(levels: seq<BookLevel>, consumed: seq<nat>, depth: nat, q1: nat, q2: nat, unit: QuantityUnit, rule: Rule)
    requires |levels| <= |consumed| && IsU64(q1 + q2) && forall c :: c in consumed ==> IsU64(c)
    ensures BothSweep(levels, consumed, depth, q1, q2, unit, rule)
       <==> SweepFrom(levels, consumed, 0, depth, q1 + q2, unit, rule, []).Ok?
    ensures BothSweep(levels, consumed, depth, q1, q2, unit, rule) ==>
      var first := SweepFrom(levels, consumed, 0, depth, q1, unit, rule, []).value;
      var between := Consume(consumed, first).value;
      var second := SweepFrom(levels, between, 0, depth, q2, unit, rule, []).value;
      var both := SweepFrom(levels, consumed, 0, depth, q1 + q2, unit, rule, []).value;
      && Consume(between, second).Ok? && Consume(between, second) == Consume(consumed, both)
      && Filled(both) == Filled(first) + Filled(second)
  {
    SucceedsExactly(levels, consumed, 0, depth, q1, unit, rule, []);
    SucceedsExactly(levels, consumed, 0, depth, q1 + q2, unit, rule, []);
    if SweepFrom(levels, consumed, 0, depth, q1, unit, rule, []).Ok? {
      var between := SweepConsumes(levels, consumed, depth, q1, unit, rule);
      FailsAfterTaking(levels, consumed, between, 0, depth, q1, rule);
      SucceedsExactly(levels, between, 0, depth, q2, unit, rule, []);
      if SweepFrom(levels, between, 0, depth, q2, unit, rule, []).Ok? {
        TwoSweepsConsume(levels, consumed, depth, q1, q2, unit, rule, between);
      }
    }
  }

  lemma {:induction false} TwoSweepsConsume(levels: seq<BookLevel>, consumed: seq<nat>, depth: nat, q1: nat, q2: nat, unit: QuantityUnit,
                                            rule: Rule, between: seq<nat>)
    requires |levels| <= |consumed| == |between| && IsU64(q1 + q2) && forall c :: c in consumed ==> IsU64(c)
    requires SweepFrom(levels, consumed, 0, depth, q1, unit, rule, []).Ok?
    requires Consume(consumed, SweepFrom(levels, consumed, 0, depth, q1, unit, rule, []).value) == Ok(between)
    requires SweepFrom(levels, between, 0, depth, q2, unit, rule, []).Ok?
    requires SweepFrom(levels, consumed, 0, depth, q1 + q2, unit, rule, []).Ok?
    ensures var first := SweepFrom(levels, consumed, 0, depth, q1, unit, rule, []).value;
      var second := SweepFrom(levels, between, 0, depth, q2, unit, rule, []).value;
      var both := SweepFrom(levels, consumed, 0, depth, q1 + q2, unit, rule, []).value;
      && Consume(between, second).Ok? && Consume(between, second) == Consume(consumed, both)
      && Filled(both) == Filled(first) + Filled(second)
  {
    var offers := Offers(levels, consumed, 0, depth, rule);
    var c1 := SweepConsumes(levels, consumed, depth, q1, unit, rule);
    OffersAfter(levels, consumed, between, 0, depth, q1, rule);
    ConsumedStaysU64(levels, consumed, offers, depth, q1, rule, between);
    var c2 := SweepConsumes(levels, between, depth, q2, unit, rule);
    var c := SweepConsumes(levels, consumed, depth, q1 + q2, unit, rule);
    ConsumptionAdds(offers, consumed, between, q1, q2, c2, c);
  }

  lemma {:induction false} ConsumptionAdds(offers: seq<nat>, consumed: seq<nat>, between: seq<nat>, q1: nat, q2: nat, c2: seq<nat>, c: seq<nat>)
    requires Adds(consumed, Take(offers, q1), 0, between)
    requires Adds(between, Take(Minus(offers, Take(offers, q1)), q2), 0, c2)
    requires Adds(consumed, Take(offers, q1 + q2), 0, c)
    ensures c2 == c
    ensures Min(q1 + q2, Greedy.Total(offers))
      == Min(q1, Greedy.Total(offers)) + Min(q2, Greedy.Total(Minus(offers, Take(offers, q1))))
  {
    var t1 := Take(offers, q1);
    var t2 := Take(Minus(offers, t1), q2);
    TakeAdds(offers, q1, q2);
    PlusPointwise(t1, t2);
    TakeTotal(offers, q1);
    TakeWithin(offers, q1);
    MinusTotal(offers, t1);
    TakeWithin(Minus(offers, t1), q2);
    assert |t1| == |t2| == |Take(offers, q1 + q2)|;
    assert forall i :: 0 <= i < |c| ==> c2[i] == c[i];
  }

  lemma {:induction false} ConsumedStaysU64(levels: seq<BookLevel>, consumed: seq<nat>, offers: seq<nat>, depth: nat, quantity: nat, rule: Rule,
                         after: seq<nat>)
    requires |levels| <= |consumed| && offers == Offers(levels, consumed, 0, depth, rule)
    requires forall c :: c in consumed ==> IsU64(c)
    requires Adds(consumed, Take(offers, quantity), 0, after)
    ensures forall c :: c in after ==> IsU64(c)
  {
    OffersBounds(levels, consumed, 0, depth, rule);
    TakeWithin(offers, quantity);
  }

  lemma {:induction false} StaysWithin(levels: seq<BookLevel>, consumed: seq<nat>, after: seq<nat>, depth: nat, quantity: nat, rule: Rule)
    requires WithinDisplayed(levels, consumed) && forall c :: c in consumed ==> IsU64(c)
    requires Adds(consumed, Take(Offers(levels, consumed, 0, depth, rule), quantity), 0, after)
    ensures WithinDisplayed(levels, after) && forall c :: c in after ==> IsU64(c)
  {
    var offers := Offers(levels, consumed, 0, depth, rule);
    OffersBounds(levels, consumed, 0, depth, rule);
    TakeWithin(offers, quantity);
    ConsumedStaysU64(levels, consumed, offers, depth, quantity, rule, after);
  }

  // -------------------------------------------------------------- best price

  function Rank(price: int, rule: Rule): int {
    if rule.side == Buy then price else -price
  }

  /** What the fills cost; for a sell, minus what they bring in. */
  function FillsCost(fills: seq<LevelFill>, rule: Rule): int {
    if fills == [] then 0 else Rank(fills[0].price, rule) * fills[0].quantity.value + FillsCost(fills[1..], rule)
  }

  /** The visible levels from `index` on: their prices, and what each still shows. */
  function VisiblePrices(levels: seq<BookLevel>, index: nat, depth: nat, rule: Rule): seq<int>
    decreases |levels| - index
  {
    if index >= |levels| || index >= depth then []
    else [Rank(SlippedPrice(levels[index], rule), rule)] + VisiblePrices(levels, index + 1, depth, rule)
  }

  function Visible(levels: seq<BookLevel>, consumed: seq<nat>, index: nat, depth: nat): seq<nat>
    requires |levels| <= |consumed|
    decreases |levels| - index
  {
    if index >= |levels| || index >= depth then []
    else [Left(levels[index], consumed[index])] + Visible(levels, consumed, index + 1, depth)
  }

  lemma {:induction false} VisibleShape(levels: seq<BookLevel>, consumed: seq<nat>, index: nat, depth: nat, rule: Rule)
    requires |levels| <= |consumed|
    ensures var prices := VisiblePrices(levels, index, depth, rule);
      && |prices| == |Visible(levels, consumed, index, depth)|
      && (prices == [] || index + |prices| <= |levels|)
      && forall i :: 0 <= i < |prices| ==> prices[i] == Rank(SlippedPrice(levels[index + i], rule), rule)
    decreases |levels| - index
  {
    if index < |levels| && index < depth {
      VisibleShape(levels, consumed, index + 1, depth, rule);
    }
  }

  /** The marketable levels come first, so the sweep chooses as if every visible level counted. */
  lemma {:induction false} SweepChoosesVisible(levels: seq<BookLevel>, consumed: seq<nat>, index: nat, depth: nat, quantity: nat,
                                               unit: QuantityUnit, rule: Rule, fills: seq<LevelFill>)
    requires |levels| <= |consumed|
    requires FillsTake(fills, levels, Take(Offers(levels, consumed, index, depth, rule), quantity), index, unit, rule)
    ensures Chooses(VisiblePrices(levels, index, depth, rule), Visible(levels, consumed, index, depth), fills, quantity, rule)
    decreases |levels| - index
  {
    var offers, visible := Offers(levels, consumed, index, depth, rule), Visible(levels, consumed, index, depth);
    var prices := VisiblePrices(levels, index, depth, rule);
    VisibleShape(levels, consumed, index, depth, rule);
    if offers == [] {
      CostNothing(prices, visible);
    } else {
      TakeHead(offers, quantity);
      var first := Min(quantity, offers[0]);
      var rest := if first == 0 then fills else fills[1..];
      SweepChoosesVisible(levels, consumed, index + 1, depth, quantity - first, unit, rule, rest);
      assert prices[1..] == VisiblePrices(levels, index + 1, depth, rule);
      assert visible[1..] == Visible(levels, consumed, index + 1, depth);
      ChooseFirst(prices, visible, fills, rest, quantity, rule);
    }
  }

  /** The fills cost what the greedy choice of their quantity costs. */
  ghost predicate Chooses(prices: seq<int>, visible: seq<nat>, fills: seq<LevelFill>, quantity: nat, rule: Rule) {
    && Filled(fills) <= quantity
    && |Take(visible, Filled(fills))| == |prices|
    && FillsCost(fills, rule) == Cost(prices, Take(visible, Filled(fills)))
  }

  lemma {:induction false} ChooseFirst(prices: seq<int>, visible: seq<nat>, fills: seq<LevelFill>, rest: seq<LevelFill>, quantity: nat, rule: Rule)
    requires |prices| == |visible| > 0
    requires var first := Min(quantity, visible[0]);
      && Chooses(prices[1..], visible[1..], rest, quantity - first, rule)
      && (first == 0 ==> rest == fills)
      && (first > 0 ==> fills != [] && rest == fills[1..] && fills[0].quantity.value == first
                        && Rank(fills[0].price, rule) == prices[0])
    ensures Chooses(prices, visible, fills, quantity, rule)
  {
    CostOfFirst(prices, visible, Filled(fills));
  }

  lemma {:induction false} CostOfFirst(prices: seq<int>, offers: seq<nat>, quantity: nat)
    requires |prices| == |offers| > 0
    ensures var first := Min(quantity, offers[0]);
      && |Take(offers, quantity)| == |prices| && |Take(offers[1..], quantity - first)| == |prices[1..]|
      && Cost(prices, Take(offers, quantity)) == prices[0] * first + Cost(prices[1..], Take(offers[1..], quantity - first))
  {
    TakeHead(offers, quantity);
    TakeWithin(offers, quantity);
    TakeWithin(offers[1..], quantity - Min(quantity, offers[0]));
  }

  lemma {:induction false} CostNothing(prices: seq<int>, offers: seq<nat>)
    requires |prices| == |offers|
    ensures |Take(offers, 0)| == |offers| && Cost(prices, Take(offers, 0)) == 0
  {
    TakeWithin(offers, 0);
    if offers != [] {
      TakeHead(offers, 0);
      CostNothing(prices[1..], offers[1..]);
    }
  }

  /** A sweep fills the smaller of what is asked and what is marketable, and among all ways to
      take that quantity from the visible levels none costs a buyer less or brings a seller more. */
  lemma {:induction false} SweepIsBest(levels: seq<BookLevel>, consumed: seq<nat>, depth: nat, quantity: nat, unit: QuantityUnit, rule: Rule,
                    kind: SideKind, fills: seq<LevelFill>, other: seq<nat>)
    requires |levels| <= |consumed| && IsU64(quantity) && forall c :: c in consumed ==> IsU64(c)
    requires kind == if rule.side == Buy then Ask else Bid
    requires forall i, j :: 0 <= i < j < |levels| ==> CorrectlyOrdered(kind, levels[i].price, levels[j].price)
    requires SweepFrom(levels, consumed, 0, depth, quantity, unit, rule, []) == Ok(fills)
    requires Within(other, Visible(levels, consumed, 0, depth)) && Greedy.Total(other) == Filled(fills)
    ensures Filled(fills) == Min(quantity, Greedy.Total(Offers(levels, consumed, 0, depth, rule)))
    ensures |VisiblePrices(levels, 0, depth, rule)| == |other|
    ensures FillsCost(fills, rule) <= Cost(VisiblePrices(levels, 0, depth, rule), other)
  {
    var after := SweepConsumes(levels, consumed, depth, quantity, unit, rule);
    SweepChoosesVisible(levels, consumed, 0, depth, quantity, unit, rule, fills);
    var prices, visible := VisiblePrices(levels, 0, depth, rule), Visible(levels, consumed, 0, depth);
    VisibleShape(levels, consumed, 0, depth, rule);
    if prices == [] {
      assert Take(visible, Filled(fills)) == [];
    } else {
      GreedyIsCheapest(prices, visible, other, Filled(fills), prices[0]);
    }
  }
}
