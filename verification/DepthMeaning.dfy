/** What a sweep of a displayed book is, slot by slot: whose levels, in which order, at which prices and how much of each. */
module DepthMeaning {
  import opened Wrappers
  import opened MachineIntegers
  import opened MarketTypes
  import opened Book
  import opened Greedy
  import opened Depth

  /** A buy sweeps the asks and a sell the bids. */
  function SlotsFor(book: Snapshot, side: OrderSide): seq<Option<BookLevel>> {
    match side
    case Buy => book.asks.slots
    case Sell => book.bids.slots
  }

  /** The price paid or taken for a level, with the adverse delta. */
  function PriceAt(level: BookLevel, rule: Rule): int {
    match rule.side
    case Buy => level.price + rule.delta
    case Sell => level.price - rule.delta
  }

  /** A level whose price, the delta included, is within the limit. */
  predicate LimitAdmits(level: BookLevel, rule: Rule) {
    match rule.orderType
    case Market => true
    case Limit(limit) => if rule.side == Buy then PriceAt(level, rule) <= limit else PriceAt(level, rule) >= limit
  }

  /** Quantities of the first slots: each within what is left of its level, at an admitted price, and nothing of a slot
      while there is more of the one before it. */
  ghost predicate TakesOf(slots: seq<Option<BookLevel>>, consumed: seq<nat>, depth: nat, rule: Rule, taken: seq<nat>) {
    && |taken| <= depth && |taken| <= |slots| && |taken| <= |consumed|
    && (forall i :: 0 <= i < |taken| ==> TakesAt(slots, consumed, rule, taken, i))
    && (forall i, j :: 0 <= i < j < |taken| && taken[j] > 0 ==> TakesAll(slots, consumed, taken, i))
  }

  ghost predicate TakesAt(slots: seq<Option<BookLevel>>, consumed: seq<nat>, rule: Rule, taken: seq<nat>, i: nat)
    requires i < |taken| && i < |slots| && i < |consumed|
  {
    && slots[i].Some? && LimitAdmits(slots[i].value, rule) && IsI128(PriceAt(slots[i].value, rule))
    && (taken[i] > 0 ==> taken[i] + consumed[i] <= slots[i].value.displayed.value)
  }

  /** What is left of a level is taken, all of it. */
  ghost predicate TakesAll(slots: seq<Option<BookLevel>>, consumed: seq<nat>, taken: seq<nat>, i: nat)
    requires i < |taken| && i < |slots| && i < |consumed|
  {
    slots[i].Some? && taken[i] + consumed[i] >= slots[i].value.displayed.value
  }

  /** The levels end there: at the depth, at an empty slot, or at a price outside the limit or the range. */
  ghost predicate EndsAt(slots: seq<Option<BookLevel>>, depth: nat, rule: Rule, n: nat) {
    n >= depth || n >= |slots| || slots[n] == None || !LimitAdmits(slots[n].value, rule) || !IsI128(PriceAt(slots[n].value, rule))
  }

  /** One fill for each level something is taken of, in order. */
  ghost predicate FillsAre(fills: seq<LevelFill>, slots: seq<Option<BookLevel>>, taken: seq<nat>, index: nat, unit: QuantityUnit, rule: Rule) {
    if taken == [] then fills == []
    else if taken[0] == 0 then FillsAre(fills, slots, taken[1..], index + 1, unit, rule)
    else
      && fills != [] && index < |slots| && slots[index].Some?
      && fills[0].levelIndex == index + 1 && fills[0].price == PriceAt(slots[index].value, rule)
      && fills[0].quantity.value == taken[0] && fills[0].quantity.unit == unit
      && FillsAre(fills[1..], slots, taken[1..], index + 1, unit, rule)
  }

  function Sum(quantities: seq<nat>): nat {
    if quantities == [] then 0 else quantities[0] + Sum(quantities[1..])
  }

  // ------------------------------------------------------- offers, slot by slot

  /** What the slot at `p` offers: an admitted level, and what is left of it. */
  ghost predicate OfferIs(slots: seq<Option<BookLevel>>, consumed: seq<nat>, rule: Rule, p: nat, offer: nat) {
    && p < |slots| && p < |consumed| && slots[p].Some? && LimitAdmits(slots[p].value, rule) && IsI128(PriceAt(slots[p].value, rule))
    && offer == Max(0, slots[p].value.displayed.value - consumed[p])
  }

  lemma {:induction false} OffersAreSlots(book: Snapshot, consumed: seq<nat>, index: nat, depth: nat, rule: Rule)
    requires |SideLevels(book, rule.side)| <= |consumed| && index <= |SideLevels(book, rule.side)|
    ensures var slots, offers := SlotsFor(book, rule.side), Offers(SideLevels(book, rule.side), consumed, index, depth, rule);
      && (offers != [] ==> index + |offers| <= depth && index + |offers| <= |slots|) && index + |offers| <= |consumed|
      && (forall i :: 0 <= i < |offers| ==> OfferIs(slots, consumed, rule, index + i, offers[i]))
      && EndsAt(slots, depth, rule, index + |offers|)
    decreases |SideLevels(book, rule.side)| - index
  {
    var levels, slots := SideLevels(book, rule.side), SlotsFor(book, rule.side);
    var offers := Offers(levels, consumed, index, depth, rule);
    ReachesExactly(slots, levels, depth, rule, index);
    if offers != [] {
      OffersAreSlots(book, consumed, index + 1, depth, rule);
      var rest := Offers(levels, consumed, index + 1, depth, rule);
      OffersCons(slots, consumed, rule, index, offers, rest);
    }
  }

  lemma {:induction false} OffersCons(slots: seq<Option<BookLevel>>, consumed: seq<nat>, rule: Rule, index: nat, offers: seq<nat>, rest: seq<nat>)
    requires offers != [] && offers[1..] == rest && OfferIs(slots, consumed, rule, index, offers[0])
    requires forall i :: 0 <= i < |rest| ==> OfferIs(slots, consumed, rule, index + 1 + i, rest[i])
    ensures forall i :: 0 <= i < |offers| ==> OfferIs(slots, consumed, rule, index + i, offers[i])
  {
    forall i | 0 <= i < |offers| ensures OfferIs(slots, consumed, rule, index + i, offers[i]) {
      if i > 0 {
        assert offers[i] == rest[i - 1] && OfferIs(slots, consumed, rule, index + 1 + (i - 1), rest[i - 1]);
      }
    }
  }

  /** A sweep goes on to a slot exactly when it does not end there. */
  lemma {:induction false} ReachesExactly(slots: seq<Option<BookLevel>>, levels: seq<BookLevel>, depth: nat, rule: Rule, p: nat)
    requires levels == Levels(slots) && p <= |levels|
    ensures (p < |levels| && p < depth && Reaches(levels[p], rule)) <==> !EndsAt(slots, depth, rule, p)
    ensures p < |levels| ==> slots[p] == Some(levels[p])
  {
  }

  lemma {:induction false} TakeFillsUp(offers: seq<nat>, quantity: nat, i: nat, j: nat)
    requires i < j < |offers| && Take(offers, quantity)[j] > 0
    ensures Take(offers, quantity)[i] == offers[i]
  {
    TakeHead(offers, quantity);
    var taken, rest := Take(offers, quantity), quantity - Min(quantity, offers[0]);
    assert taken[j] == taken[1..][j - 1];
    if i == 0 {
      if rest == 0 {
        NothingTaken(offers[1..], j - 1);
      }
    } else {
      assert taken[i] == taken[1..][i - 1];
      TakeFillsUp(offers[1..], rest, i - 1, j - 1);
    }
  }

  lemma {:induction false} NothingTaken(offers: seq<nat>, i: nat)
    requires i < |offers|
    ensures Take(offers, 0)[i] == 0
  {
    TakeHead(offers, 0);
    if i > 0 {
      assert Take(offers, 0)[i] == Take(offers, 0)[1..][i - 1];
      NothingTaken(offers[1..], i - 1);
    }
  }

  lemma {:induction false} SameFills(fills: seq<LevelFill>, book: Snapshot, taken: seq<nat>, index: nat, unit: QuantityUnit, rule: Rule)
    requires FillsTake(fills, SideLevels(book, rule.side), taken, index, unit, rule)
    ensures FillsAre(fills, SlotsFor(book, rule.side), taken, index, unit, rule)
  {
    if taken != [] {
      SameFills(if taken[0] == 0 then fills else fills[1..], book, taken[1..], index + 1, unit, rule);
    }
  }

  lemma {:induction false} SameSum(quantities: seq<nat>)
    ensures Sum(quantities) == Greedy.Total(quantities)
  {
    if quantities != [] {
      SameSum(quantities[1..]);
    }
  }

  // ------------------------------------------------------------- main results

  /** What a sweep that succeeds takes: of the right side of the book, level by level, at its level's price with the delta,
      as much as is asked or else all there is to the end. */
  lemma {:induction false} SweepTakes(book: Snapshot, requested: Quantity, depth: nat, rule: Rule, consumed: seq<nat>) returns (taken: seq<nat>)
    requires |SideLevels(book, rule.side)| <= |consumed| && SweepDepth(book, requested, depth, rule, consumed).Ok?
    ensures var sweep, slots := SweepDepth(book, requested, depth, rule, consumed).value, SlotsFor(book, rule.side);
      && TakesOf(slots, consumed, depth, rule, taken) && FillsAre(sweep.fills, slots, taken, 0, requested.unit, rule)
      && sweep.requested == requested && sweep.filled == Sum(taken) <= requested.value
      && (sweep.filled < requested.value ==>
            EndsAt(slots, depth, rule, |taken|) && forall i :: 0 <= i < |taken| ==> TakesAll(slots, consumed, taken, i))
  {
    var levels := SideLevels(book, rule.side);
    var offers := Offers(levels, consumed, 0, depth, rule);
    taken := Take(offers, requested.value);
    var fills := SweepIsGreedy(levels, consumed, 0, depth, requested.value, requested.unit, rule, []);
    assert [] + fills == fills;
    OffersAreSlots(book, consumed, 0, depth, rule);
    TakeWithin(offers, requested.value);
    TakeTotal(offers, requested.value);
    SameFills(fills, book, taken, 0, requested.unit, rule);
    SameSum(taken);
    FilledIsTaken(fills, levels, taken, 0, requested.unit, rule);
    TakenAsOf(SlotsFor(book, rule.side), consumed, depth, rule, offers, requested.value);
    Exhausted(SlotsFor(book, rule.side), consumed, rule, offers, requested.value);
  }

  lemma {:induction false} Exhausted(slots: seq<Option<BookLevel>>, consumed: seq<nat>, rule: Rule, offers: seq<nat>, quantity: nat)
    requires |offers| <= |consumed| && |offers| <= |slots|
    requires forall i :: 0 <= i < |offers| ==> OfferIs(slots, consumed, rule, 0 + i, offers[i])
    ensures Greedy.Total(Take(offers, quantity)) < quantity ==>
      forall i :: 0 <= i < |offers| ==> TakesAll(slots, consumed, Take(offers, quantity), i)
  {
    if Greedy.Total(Take(offers, quantity)) < quantity {
      TakesEverything(offers, quantity);
      forall i | 0 <= i < |offers| ensures TakesAll(slots, consumed, offers, i) {
        assert OfferIs(slots, consumed, rule, 0 + i, offers[i]);
      }
    }
  }

  lemma {:induction false} TakenAsOf(slots: seq<Option<BookLevel>>, consumed: seq<nat>, depth: nat, rule: Rule, offers: seq<nat>, quantity: nat)
    requires |offers| <= |consumed| && |offers| <= |slots| && |offers| <= depth
    requires forall i :: 0 <= i < |offers| ==> OfferIs(slots, consumed, rule, 0 + i, offers[i])
    ensures TakesOf(slots, consumed, depth, rule, Take(offers, quantity))
  {
    var taken := Take(offers, quantity);
    TakeWithin(offers, quantity);
    forall i | 0 <= i < |taken| ensures TakesAt(slots, consumed, rule, taken, i) {
      assert OfferIs(slots, consumed, rule, 0 + i, offers[i]);
    }
    forall i, j | 0 <= i < j < |taken| && taken[j] > 0 ensures TakesAll(slots, consumed, taken, i) {
      TakeFillsUp(offers, quantity, i, j);
      assert OfferIs(slots, consumed, rule, 0 + i, offers[i]);
    }
  }

  lemma {:induction false} TakesEverything(offers: seq<nat>, quantity: nat)
    requires Greedy.Total(Take(offers, quantity)) < quantity
    ensures Take(offers, quantity) == offers
  {
    if offers != [] {
      TakeHead(offers, quantity);
      var taken := Take(offers, quantity);
      assert taken == [taken[0]] + taken[1..];
      if quantity < offers[0] {
        assert false;
      }
      TakesEverything(offers[1..], quantity - offers[0]);
      assert offers == [offers[0]] + offers[1..];
    }
  }

  lemma {:induction false} FilledIsTaken(fills: seq<LevelFill>, levels: seq<BookLevel>, taken: seq<nat>, index: nat, unit: QuantityUnit, rule: Rule)
    requires FillsTake(fills, levels, taken, index, unit, rule)
    ensures Filled(fills) == Greedy.Total(taken)
  {
    if taken != [] {
      FilledIsTaken(if taken[0] == 0 then fills else fills[1..], levels, taken[1..], index + 1, unit, rule);
    }
  }

  /** A sweep is refused for its depth, its delta or its unit, in that order, before any level is looked at. */
  lemma {:induction false} SweepRefused(book: Snapshot, requested: Quantity, depth: int, rule: Rule, consumed: seq<nat>)
    requires |SideLevels(book, rule.side)| <= |consumed|
    ensures var r := SweepDepth(book, requested, depth, rule, consumed);
      && (!(1 <= depth <= 5) ==> r == Err(InvalidDepthLevels(depth)))
      && (1 <= depth <= 5 && rule.delta < 0 ==> r == Err(InvalidAdversePriceDelta))
      && (1 <= depth <= 5 && rule.delta >= 0 && BookUnit(book).Some? && BookUnit(book).value != requested.unit ==>
            r == Err(DepthUnitMismatch(requested.unit, BookUnit(book).value)))
  {
  }

  /** What fails a sweep at a slot: a price out of range with the delta, or more gone of an admitted level than it displays. */
  ghost predicate FailsAt(slots: seq<Option<BookLevel>>, consumed: seq<nat>, rule: Rule, p: nat, error: DepthError) {
    && p < |slots| && p < |consumed| && slots[p].Some?
    && if !IsI128(PriceAt(slots[p].value, rule)) then error == InvalidAdversePriceDelta
       else LimitAdmits(slots[p].value, rule) && slots[p].value.displayed.value < consumed[p] && error == ConsumedQuantityExceedsDisplayed(p + 1)
  }

  ghost predicate SoundAt(slots: seq<Option<BookLevel>>, consumed: seq<nat>, rule: Rule, p: nat) {
    && p < |slots| && p < |consumed| && slots[p].Some? && IsI128(PriceAt(slots[p].value, rule)) && LimitAdmits(slots[p].value, rule)
    && consumed[p] <= slots[p].value.displayed.value
  }

  /** A sweep that gets to the levels fails only for one of them, the first that is not sound. */
  lemma {:induction false} SweepFailsAt(book: Snapshot, requested: Quantity, depth: int, rule: Rule, consumed: seq<nat>) returns (p: nat)
    requires |SideLevels(book, rule.side)| <= |consumed| && 1 <= depth <= 5 && rule.delta >= 0
    requires BookUnit(book) == None || BookUnit(book).value == requested.unit
    requires SweepDepth(book, requested, depth, rule, consumed).Err?
    ensures p < depth && FailsAt(SlotsFor(book, rule.side), consumed, rule, p, SweepDepth(book, requested, depth, rule, consumed).error)
    ensures forall i :: 0 <= i < p ==> SoundAt(SlotsFor(book, rule.side), consumed, rule, i)
  {
    p := LevelFails(book, consumed, 0, depth, requested.value, requested.unit, rule, []);
  }

  lemma {:induction false} LevelFails(book: Snapshot, consumed: seq<nat>, index: nat, depth: nat, remaining: nat, unit: QuantityUnit, rule: Rule,
                                      done: seq<LevelFill>) returns (p: nat)
    requires |SideLevels(book, rule.side)| <= |consumed| && IsU64(remaining)
    requires SweepFrom(SideLevels(book, rule.side), consumed, index, depth, remaining, unit, rule, done).Err?
    ensures index <= p < depth
    ensures FailsAt(SlotsFor(book, rule.side), consumed, rule, p,
                    SweepFrom(SideLevels(book, rule.side), consumed, index, depth, remaining, unit, rule, done).error)
    ensures forall i :: index <= i < p ==> SoundAt(SlotsFor(book, rule.side), consumed, rule, i)
    decreases |SideLevels(book, rule.side)| - index
  {
    var levels := SideLevels(book, rule.side);
    assert SlotsFor(book, rule.side)[index] == Some(levels[index]);
    p := index;
    if Reaches(levels[index], rule) && consumed[index] <= levels[index].displayed.value {
      var value := Min(remaining, Left(levels[index], consumed[index]));
      p := LevelFails(book, consumed, index + 1, depth, remaining - value, unit, rule, done + OneFill(levels, index, value, unit, rule));
    }
  }

  // --------------------------------------------------------------- consumption

  /** What was taken is gone. */
  ghost predicate GoneAfter(before: Counts, taken: seq<nat>, after: Counts) {
    |taken| <= 5 && forall p :: 0 <= p < 5 ==> after[p] == before[p] + (if p < |taken| then taken[p] else 0)
  }

  /** All of the quantity is taken, or else all there is to the end. */
  ghost predicate TakesUpTo(slots: seq<Option<BookLevel>>, gone: seq<nat>, depth: nat, rule: Rule, quantity: nat, taken: seq<nat>) {
    && TakesOf(slots, gone, depth, rule, taken) && Sum(taken) <= quantity
    && (Sum(taken) < quantity ==> EndsAt(slots, depth, rule, |taken|) && forall p :: 0 <= p < |taken| ==> TakesAll(slots, gone, taken, p))
  }

  lemma {:induction false} LevelsTaken(levels: seq<LevelFill>, slots: seq<Option<BookLevel>>, taken: seq<nat>, p: nat, unit: QuantityUnit, rule: Rule, level: nat)
    requires FillsAre(levels, slots, taken, p, unit, rule)
    ensures TakenFromLevel(levels, level) == if p < level <= p + |taken| then taken[level - 1 - p] else 0
    decreases taken
  {
    if taken != [] {
      if taken[0] == 0 {
        LevelsTaken(levels, slots, taken[1..], p + 1, unit, rule, level);
      } else {
        LevelsTaken(levels[1..], slots, taken[1..], p + 1, unit, rule, level);
      }
    }
  }

  lemma {:induction false} GoneIsConsumed(before: Counts, levels: seq<LevelFill>, slots: seq<Option<BookLevel>>, taken: seq<nat>, unit: QuantityUnit, rule: Rule,
                                          after: Counts)
    requires FillsAre(levels, slots, taken, 0, unit, rule) && |taken| <= 5 && Consume(before, levels) == Ok(after)
    ensures GoneAfter(before, taken, after)
  {
    forall p | 0 <= p < 5 ensures after[p] == before[p] + (if p < |taken| then taken[p] else 0) {
      ConsumeTakes(before, levels, p + 1);
      LevelsTaken(levels, slots, taken, 0, unit, rule, p + 1);
    }
  }
}
