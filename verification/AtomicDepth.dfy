/** All-or-nothing execution of several legs over shared, consumable depth. */
module AtomicDepth {
  import opened Wrappers
  import opened MachineIntegers
  import opened MarketTypes
  import opened Book
  import opened Greedy
  import opened Depth
  import DepthMeaning

  datatype ConsumableDepth = ConsumableDepth(book: Snapshot, consumedBids: Counts, consumedAsks: Counts)

  type Books = map<InstrumentId, ConsumableDepth>

  datatype Leg = Leg(instrument: InstrumentId, side: OrderSide)

  datatype LegFill = LegFill(leg: Leg, sweep: Sweep)

  function MarketRule(side: OrderSide): Rule {
    Rule(side, Market, 0)
  }

  function ConsumedOf(d: ConsumableDepth, side: OrderSide): Counts {
    if side == Buy then d.consumedAsks else d.consumedBids
  }

  ghost predicate SideWithin(d: ConsumableDepth, side: OrderSide) {
    WithinDisplayed(SideLevels(d.book, side), ConsumedOf(d, side)) && forall c :: c in ConsumedOf(d, side) ==> IsU64(c)
  }

  ghost predicate ValidDepth(d: ConsumableDepth) {
    SideWithin(d, Buy) && SideWithin(d, Sell)
  }

  function Preview(d: ConsumableDepth, side: OrderSide, requested: Quantity, depth: int): Result<Sweep, DepthError>
  {
    SweepDepth(d.book, requested, depth, MarketRule(side), ConsumedOf(d, side))
  }

  function Applied(d: ConsumableDepth, side: OrderSide, sweep: Sweep): Result<ConsumableDepth, DepthError> {
    var consumed :- Consume(ConsumedOf(d, side), sweep.fills);
    Ok(WithConsumed(d, side, consumed))
  }

  function WithConsumed(d: ConsumableDepth, side: OrderSide, consumed: Counts): ConsumableDepth {
    if side == Buy then d.(consumedAsks := consumed) else d.(consumedBids := consumed)
  }

  type Executed = Result<Option<(seq<LegFill>, Books)>, DepthError>

  /** Executes the legs one after the other on staged books, adding to the fills already `done`. */
  function ExecuteLegs(staged: Books, legs: seq<Leg>, requested: Quantity, depth: int, done: seq<LegFill>): Executed
    decreases legs
  {
    if legs == [] then Ok(Some((done, staged))) else
    var leg := legs[0];
    if leg.instrument !in staged then Ok(None) else
    var book := staged[leg.instrument];
    var sweep :- Preview(book, leg.side, requested, depth);
    if sweep.filled != requested.value then Ok(None) else
    var next :- Applied(book, leg.side, sweep);
    ExecuteLegs(staged[leg.instrument := next], legs[1..], requested, depth, done + [LegFill(leg, sweep)])
  }

  function Staged(books: Books, legs: seq<Leg>): Books {
    map leg | leg in legs && leg.instrument in books :: leg.instrument := books[leg.instrument]
  }

  function Execute(books: Books, legs: seq<Leg>, requested: Quantity, depth: int): Executed {
    if exists i :: 0 <= i < |legs| && legs[i].instrument !in books then Ok(None) else
    var result :- ExecuteLegs(Staged(books, legs), legs, requested, depth, []);
    match result
    case None => Ok(None)
    case Some((fills, changed)) => Ok(Some((fills, books + changed)))
  }

  // ----------------------------------------------------------------- meaning

  function SideOffers(d: ConsumableDepth, side: OrderSide, depth: nat): seq<nat>
  {
    Offers(SideLevels(d.book, side), ConsumedOf(d, side), 0, depth, MarketRule(side))
  }

  /** `after` is `before` with `quantity` taken from one side, best levels first. */
  ghost predicate TakenFrom(before: ConsumableDepth, after: ConsumableDepth, side: OrderSide, quantity: nat, depth: nat)
  {
    Adds(ConsumedOf(before, side), Take(SideOffers(before, side, depth), quantity), 0, ConsumedOf(after, side))
  }

  function Legs(legs: seq<Leg>, instrument: InstrumentId, side: OrderSide): nat {
    if legs == [] then 0
    else (if legs[0] == Leg(instrument, side) then 1 else 0) + Legs(legs[1..], instrument, side)
  }

  /** One leg's preview always succeeds, is complete exactly when enough is left, and what it
      consumes is what the greedy choice takes. */
  lemma {:induction false} PreviewTakes(d: ConsumableDepth, side: OrderSide, requested: Quantity, depth: nat) returns (sweep: Sweep, next: ConsumableDepth)
    requires ValidDepth(d) && 1 <= depth <= BOOK_DEPTH && UnitFits(d, requested)
    ensures Preview(d, side, requested, depth) == Ok(sweep) && Applied(d, side, sweep) == Ok(next)
    ensures sweep.filled == requested.value <==> requested.value <= Greedy.Total(SideOffers(d, side, depth))
    ensures Takes(d, next, side, requested.value, depth)
  {
    var levels, consumed, rule := SideLevels(d.book, side), ConsumedOf(d, side), MarketRule(side);
    assert SideWithin(d, side);
    SweepSucceeds(levels, consumed, 0, depth, requested.value, requested.unit, rule, []);
    var after := SweepConsumes(levels, consumed, depth, requested.value, requested.unit, rule);
    sweep := Preview(d, side, requested, depth).value;
    next := WithConsumed(d, side, after);
    ConsumingTakes(d, side, requested.value, depth, after);
  }

  ghost predicate UnitFits(d: ConsumableDepth, requested: Quantity) {
    BookUnit(d.book) == None || BookUnit(d.book).value == requested.unit
  }

  /** `next` is `d` with `quantity` consumed on one side and nothing else changed. */
  ghost predicate Takes(d: ConsumableDepth, next: ConsumableDepth, side: OrderSide, quantity: nat, depth: nat) {
    && ValidDepth(next) && next.book == d.book
    && ConsumedOf(next, Other(side)) == ConsumedOf(d, Other(side))
    && TakenFrom(d, next, side, quantity, depth)
    && SideOffers(next, side, depth) == Minus(SideOffers(d, side, depth), Take(SideOffers(d, side, depth), quantity))
  }

  function Other(side: OrderSide): OrderSide {
    if side == Buy then Sell else Buy
  }

  lemma {:induction false} ConsumingTakes(d: ConsumableDepth, side: OrderSide, quantity: nat, depth: nat, after: Counts)
    requires ValidDepth(d) && Adds(ConsumedOf(d, side), Take(SideOffers(d, side, depth), quantity), 0, after)
    ensures Takes(d, WithConsumed(d, side, after), side, quantity, depth)
  {
    var levels, consumed, rule := SideLevels(d.book, side), ConsumedOf(d, side), MarketRule(side);
    assert SideWithin(d, side) && SideWithin(d, Other(side));
    OffersAfter(levels, consumed, after, 0, depth, quantity, rule);
    StaysWithin(levels, consumed, after, depth, quantity, rule);
    var next := WithConsumed(d, side, after);
    assert ConsumedOf(next, side) == after && SideLevels(next.book, side) == levels;
    assert SideWithin(next, side) && SideWithin(next, Other(side));
  }

  // ------------------------------------------------------------ main results

  /** What the legs of one side of one instrument ask for together. */
  function Demand(legs: seq<Leg>, instrument: InstrumentId, side: OrderSide, quantity: nat): nat {
    if legs == [] then 0
    else Demand(legs[1..], instrument, side, quantity) + (if legs[0] == Leg(instrument, side) then quantity else 0)
  }

  /** It is the number of those legs times what each asks for. */
  lemma {:induction false} DemandIsProduct(legs: seq<Leg>, k: InstrumentId, side: OrderSide, quantity: nat)
    ensures Demand(legs, k, side, quantity) == Legs(legs, k, side) * quantity
  {
    if legs != [] {
      DemandIsProduct(legs[1..], k, side, quantity);
      var n := Legs(legs[1..], k, side);
      assert (n + 1) * quantity == n * quantity + quantity;
    }
  }

  ghost predicate Enough(books: Books, legs: seq<Leg>, instrument: InstrumentId, side: OrderSide, quantity: nat, depth: nat) {
    instrument in books ==> Demand(legs, instrument, side, quantity) <= Greedy.Total(SideOffers(books[instrument], side, depth))
  }

  /** Every side of every book still shows what its legs ask for together. */
  ghost predicate EnoughForAll(books: Books, legs: seq<Leg>, quantity: nat, depth: nat) {
    forall k, side :: Enough(books, legs, k, side, quantity, depth)
  }

  ghost predicate Took(before: Books, after: Books, legs: seq<Leg>, instrument: InstrumentId, side: OrderSide, quantity: nat, depth: nat) {
    instrument in before ==>
      && instrument in after && after[instrument].book == before[instrument].book && ValidDepth(after[instrument])
      && TakenFrom(before[instrument], after[instrument], side, Demand(legs, instrument, side, quantity), depth)
  }

  ghost predicate TookAll(before: Books, after: Books, legs: seq<Leg>, quantity: nat, depth: nat) {
    after.Keys == before.Keys && forall k, side :: Took(before, after, legs, k, side, quantity, depth)
  }

  ghost predicate Ready(books: Books, requested: Quantity) {
    forall k :: k in books ==> ValidDepth(books[k]) && UnitFits(books[k], requested)
  }

  lemma {:induction false} DemandStep(legs: seq<Leg>, k: InstrumentId, side: OrderSide, quantity: nat)
    requires legs != []
    ensures Demand(legs, k, side, quantity) == Demand(legs[1..], k, side, quantity) + (if legs[0] == Leg(k, side) then quantity else 0)
  {
  }

  lemma {:induction false} EnoughStep(books: Books, legs: seq<Leg>, next: ConsumableDepth, quantity: nat, depth: nat)
    requires legs != [] && legs[0].instrument in books
    requires Takes(books[legs[0].instrument], next, legs[0].side, quantity, depth)
    requires quantity <= Greedy.Total(SideOffers(books[legs[0].instrument], legs[0].side, depth))
    ensures EnoughForAll(books, legs, quantity, depth)
      <==> EnoughForAll(books[legs[0].instrument := next], legs[1..], quantity, depth)
  {
    var k0, s0 := legs[0].instrument, legs[0].side;
    var later := books[k0 := next];
    var offers := SideOffers(books[k0], s0, depth);
    TakeTotal(offers, quantity);
    TakeWithin(offers, quantity);
    MinusTotal(offers, Take(offers, quantity));
    forall k, side
      ensures Enough(books, legs, k, side, quantity, depth) <==> Enough(later, legs[1..], k, side, quantity, depth)
    {
      DemandStep(legs, k, side, quantity);
      assert k == k0 && side != s0 ==> side == Other(s0);
    }
  }

  lemma {:induction false} TookStep(books: Books, legs: seq<Leg>, next: ConsumableDepth, after: Books, quantity: nat, depth: nat)
    requires legs != [] && legs[0].instrument in books
    requires Takes(books[legs[0].instrument], next, legs[0].side, quantity, depth)
    requires TookAll(books[legs[0].instrument := next], after, legs[1..], quantity, depth)
    ensures TookAll(books, after, legs, quantity, depth)
  {
    forall k, side ensures Took(books, after, legs, k, side, quantity, depth) {
      TookSide(books, legs, next, after, quantity, depth, k, side);
    }
  }

  lemma {:induction false} TookSide(books: Books, legs: seq<Leg>, next: ConsumableDepth, after: Books, quantity: nat, depth: nat,
                                    k: InstrumentId, side: OrderSide)
    requires legs != [] && legs[0].instrument in books
    requires Takes(books[legs[0].instrument], next, legs[0].side, quantity, depth)
    requires TookAll(books[legs[0].instrument := next], after, legs[1..], quantity, depth)
    ensures Took(books, after, legs, k, side, quantity, depth)
  {
    var k0 := legs[0].instrument;
    DemandStep(legs, k, side, quantity);
    assert Took(books[k0 := next], after, legs[1..], k, side, quantity, depth);
    if k == k0 {
      TookOwn(books[k0], next, after[k0], legs, side, quantity, depth);
    } else {
      TookOther(books, next, k0, k);
    }
  }

  lemma {:induction false} TookOther(books: Books, next: ConsumableDepth, changed: InstrumentId, k: InstrumentId)
    requires k != changed
    ensures k in books <==> k in books[changed := next]
    ensures k in books ==> books[changed := next][k] == books[k]
  {
  }

  lemma {:induction false} TookOwn(d: ConsumableDepth, next: ConsumableDepth, after: ConsumableDepth, legs: seq<Leg>, side: OrderSide,
                                   quantity: nat, depth: nat)
    requires legs != [] && Takes(d, next, legs[0].side, quantity, depth)
    requires TakenFrom(next, after, side, Demand(legs[1..], legs[0].instrument, side, quantity), depth)
    ensures next.book == d.book && TakenFrom(d, after, side, Demand(legs, legs[0].instrument, side, quantity), depth)
  {
    var rest, demand := Demand(legs[1..], legs[0].instrument, side, quantity), Demand(legs, legs[0].instrument, side, quantity);
    DemandStep(legs, legs[0].instrument, side, quantity);
    TookAtLeg(d, next, after, legs[0].side, side, quantity, rest, demand, depth);
  }

  lemma {:induction false} TookAtLeg(d: ConsumableDepth, next: ConsumableDepth, after: ConsumableDepth, own: OrderSide, side: OrderSide,
                                     quantity: nat, rest: nat, demand: nat, depth: nat)
    requires Takes(d, next, own, quantity, depth) && TakenFrom(next, after, side, rest, depth)
    requires demand == if side == own then rest + quantity else rest
    ensures next.book == d.book && TakenFrom(d, after, side, demand, depth)
  {
    if side == own {
      SameSideTook(d, next, after, own, quantity, rest, depth);
    } else {
      OtherSideTook(d, next, after, own, quantity, rest, depth);
    }
  }

  lemma {:induction false} SameSideTook(d: ConsumableDepth, next: ConsumableDepth, after: ConsumableDepth, side: OrderSide, quantity: nat,
                                        rest: nat, depth: nat)
    requires Takes(d, next, side, quantity, depth) && TakenFrom(next, after, side, rest, depth)
    ensures TakenFrom(d, after, side, rest + quantity, depth)
  {
    TakeTwice(SideOffers(d, side, depth), ConsumedOf(d, side), ConsumedOf(next, side), quantity, rest, ConsumedOf(after, side));
  }

  /** What one side gives leaves the other as it was. */
  lemma {:induction false} OtherSideTook(d: ConsumableDepth, next: ConsumableDepth, after: ConsumableDepth, side: OrderSide, quantity: nat,
                                         rest: nat, depth: nat)
    requires Takes(d, next, side, quantity, depth) && TakenFrom(next, after, Other(side), rest, depth)
    ensures TakenFrom(d, after, Other(side), rest, depth)
  {
  }

  lemma {:induction false} TakeTwice(offers: seq<nat>, consumed: seq<nat>, between: seq<nat>, q1: nat, q2: nat, after: seq<nat>)
    requires Adds(consumed, Take(offers, q1), 0, between)
    requires Adds(between, Take(Minus(offers, Take(offers, q1)), q2), 0, after)
    ensures Adds(consumed, Take(offers, q1 + q2), 0, after)
  {
    TakeAdds(offers, q1, q2);
    var t1, t2 := Take(offers, q1), Take(Minus(offers, Take(offers, q1)), q2);
    PlusPointwise(t1, t2);
    TakeWithin(offers, q1);
    MinusTotal(offers, t1);
    TakeWithin(Minus(offers, t1), q2);
    TakeWithin(offers, q1 + q2);
  }

  lemma {:induction false} NothingTaken(books: Books, requested: Quantity, depth: nat)
    requires Ready(books, requested)
    ensures EnoughForAll(books, [], requested.value, depth) && TookAll(books, books, [], requested.value, depth)
  {
    forall k, side ensures Took(books, books, [], k, side, requested.value, depth) {
      if k in books {
        var offers := SideOffers(books[k], side, depth);
        TakeZero(offers);
        OffersBounds(SideLevels(books[k].book, side), ConsumedOf(books[k], side), 0, depth, MarketRule(side));
      }
    }
  }

  lemma {:induction false} TakeZero(offers: seq<nat>)
    ensures |Take(offers, 0)| == |offers| && forall i :: 0 <= i < |offers| ==> Take(offers, 0)[i] == 0
  {
    if offers != [] {
      TakeHead(offers, 0);
      TakeZero(offers[1..]);
    }
  }

  /** Over books that hold every leg: never an error; fills exactly when every side shows enough
      for all its legs together; and then each side has lost exactly that, best levels first. */
  lemma {:induction false} LegsMeaning(books: Books, legs: seq<Leg>, requested: Quantity, depth: nat, done: seq<LegFill>)
    requires Ready(books, requested) && 1 <= depth <= BOOK_DEPTH
    requires forall leg :: leg in legs ==> leg.instrument in books
    ensures var r := ExecuteLegs(books, legs, requested, depth, done);
      && r.Ok?
      && (r.value.Some? <==> EnoughForAll(books, legs, requested.value, depth))
      && (r.value.Some? ==> |r.value.value.0| == |done| + |legs| && TookAll(books, r.value.value.1, legs, requested.value, depth))
    decreases legs
  {
    if legs == [] {
      NothingTaken(books, requested, depth);
      return;
    }
    var leg, quantity := legs[0], requested.value;
    var book := books[leg.instrument];
    var sweep, next := PreviewTakes(book, leg.side, requested, depth);
    if sweep.filled != quantity {
      DemandStep(legs, leg.instrument, leg.side, quantity);
      assert !Enough(books, legs, leg.instrument, leg.side, quantity, depth);
    } else {
      var later, filled := books[leg.instrument := next], done + [LegFill(leg, sweep)];
      EnoughStep(books, legs, next, quantity, depth);
      LegsMeaning(later, legs[1..], requested, depth, filled);
      var r := ExecuteLegs(later, legs[1..], requested, depth, filled);
      if r.value.Some? {
        TookStep(books, legs, next, r.value.value.1, quantity, depth);
      }
    }
  }

  /** Each side of each book the legs name has lost exactly what they ask for; nothing else changed. */
  ghost predicate Committed(books: Books, after: Books, legs: seq<Leg>, quantity: nat, depth: nat) {
    && after.Keys == books.Keys
    && TookAll(Staged(books, legs), Staged(after, legs), legs, quantity, depth)
    && forall k :: k in books && k !in Staged(books, legs) ==> after[k] == books[k]
  }

  ghost predicate AllListed(books: Books, legs: seq<Leg>) {
    forall leg :: leg in legs ==> leg.instrument in books
  }

  /** With a legal depth, matching units and consumption within what is displayed, execution never
      fails: it fills exactly when every leg has a book and every side shows enough for all its
      legs together, and then each side has lost exactly their sum. */
  lemma {:induction false} ExecuteMeaning(books: Books, legs: seq<Leg>, requested: Quantity, depth: nat)
    requires 1 <= depth <= BOOK_DEPTH && Ready(Staged(books, legs), requested)
    ensures var r := Execute(books, legs, requested, depth);
      && r.Ok?
      && (r.value.Some? <==> AllListed(books, legs) && EnoughForAll(Staged(books, legs), legs, requested.value, depth))
      && (r.value.Some? ==> |r.value.value.0| == |legs| && Committed(books, r.value.value.1, legs, requested.value, depth))
  {
    if AllListed(books, legs) {
      var staged := Staged(books, legs);
      LegsMeaning(staged, legs, requested, depth, []);
      var r := ExecuteLegs(staged, legs, requested, depth, []);
      if r.value.Some? {
        CommitMeaning(books, legs, r.value.value.1, requested.value, depth);
      }
    } else {
      var leg :| leg in legs && leg.instrument !in books;
      var i :| 0 <= i < |legs| && legs[i] == leg;
    }
  }

  lemma {:induction false} CommitMeaning(books: Books, legs: seq<Leg>, changed: Books, quantity: nat, depth: nat)
    requires AllListed(books, legs) && TookAll(Staged(books, legs), changed, legs, quantity, depth)
    ensures Committed(books, books + changed, legs, quantity, depth)
  {
    assert Staged(books + changed, legs) == changed;
  }

  /** The order of the legs does not matter: not for whether they fill, nor for what remains. */
  lemma {:induction false} OrderDoesNotMatter(books: Books, legs: seq<Leg>, others: seq<Leg>, requested: Quantity, depth: nat)
    requires 1 <= depth <= BOOK_DEPTH && Ready(Staged(books, legs), requested)
    requires multiset(legs) == multiset(others)
    ensures var a, b := Execute(books, legs, requested, depth), Execute(books, others, requested, depth);
      && a.Ok? && b.Ok? && a.value.Some? == b.value.Some?
      && (a.value.Some? ==> a.value.value.1 == b.value.value.1)
  {
    SameLegs(books, legs, others, requested.value);
    SameEnough(Staged(books, legs), legs, others, requested.value, depth);
    ExecuteMeaning(books, legs, requested, depth);
    ExecuteMeaning(books, others, requested, depth);
    var a, b := Execute(books, legs, requested, depth).value, Execute(books, others, requested, depth).value;
    if a.Some? && b.Some? {
      CommittedOnce(books, legs, others, a.value.1, b.value.1, requested.value, depth);
    }
  }

  ghost predicate SameDemand(legs: seq<Leg>, others: seq<Leg>, quantity: nat) {
    forall k, side :: Demand(legs, k, side, quantity) == Demand(others, k, side, quantity)
  }

  lemma {:induction false} SameLegs(books: Books, legs: seq<Leg>, others: seq<Leg>, quantity: nat)
    requires multiset(legs) == multiset(others)
    ensures SameDemand(legs, others, quantity)
    ensures Staged(books, legs) == Staged(books, others) && (AllListed(books, legs) <==> AllListed(books, others))
  {
    assert forall leg :: leg in legs <==> leg in multiset(legs);
    assert forall leg :: leg in others <==> leg in multiset(others);
    forall k, side ensures Demand(legs, k, side, quantity) == Demand(others, k, side, quantity) {
      DemandIsProduct(legs, k, side, quantity);
      DemandIsProduct(others, k, side, quantity);
      LegsCount(legs, k, side);
      LegsCount(others, k, side);
    }
  }

  lemma {:induction false} SameEnough(staged: Books, legs: seq<Leg>, others: seq<Leg>, quantity: nat, depth: nat)
    requires SameDemand(legs, others, quantity)
    ensures EnoughForAll(staged, legs, quantity, depth) <==> EnoughForAll(staged, others, quantity, depth)
  {
    forall k, side ensures Enough(staged, legs, k, side, quantity, depth) <==> Enough(staged, others, k, side, quantity, depth) {
      assert Demand(legs, k, side, quantity) == Demand(others, k, side, quantity);
    }
  }

  lemma {:induction false} CommittedOnce(books: Books, legs: seq<Leg>, others: seq<Leg>, a: Books, b: Books, quantity: nat, depth: nat)
    requires Staged(books, legs) == Staged(books, others) && SameDemand(legs, others, quantity)
    requires Committed(books, a, legs, quantity, depth) && Committed(books, b, others, quantity, depth)
    ensures a == b
  {
    var staged := Staged(books, legs);
    forall k | k in books ensures a[k] == b[k] {
      if k in staged {
        TookOnce(staged, legs, Staged(a, legs), k, quantity, depth);
        TookOnce(staged, others, Staged(b, others), k, quantity, depth);
        assert Demand(legs, k, Buy, quantity) == Demand(others, k, Buy, quantity);
        assert Demand(legs, k, Sell, quantity) == Demand(others, k, Sell, quantity);
        SameTaken(staged[k], a[k], b[k], depth, Demand(legs, k, Buy, quantity), Demand(legs, k, Sell, quantity));
      }
    }
  }

  lemma {:induction false} TookOnce(staged: Books, legs: seq<Leg>, after: Books, k: InstrumentId, quantity: nat, depth: nat)
    requires TookAll(staged, after, legs, quantity, depth) && k in staged
    ensures k in after && after[k].book == staged[k].book
    ensures TakenFrom(staged[k], after[k], Buy, Demand(legs, k, Buy, quantity), depth)
    ensures TakenFrom(staged[k], after[k], Sell, Demand(legs, k, Sell, quantity), depth)
  {
    assert Took(staged, after, legs, k, Buy, quantity, depth) && Took(staged, after, legs, k, Sell, quantity, depth);
  }

  lemma {:induction false} SameTaken(before: ConsumableDepth, a: ConsumableDepth, b: ConsumableDepth, depth: nat, bought: nat, sold: nat)
    requires a.book == before.book == b.book
    requires TakenFrom(before, a, Buy, bought, depth) && TakenFrom(before, b, Buy, bought, depth)
    requires TakenFrom(before, a, Sell, sold, depth) && TakenFrom(before, b, Sell, sold, depth)
    ensures a == b
  {
    assert a.consumedAsks == b.consumedAsks && a.consumedBids == b.consumedBids;
  }

  lemma {:induction false} LegsCount(legs: seq<Leg>, k: InstrumentId, side: OrderSide)
    ensures Legs(legs, k, side) == multiset(legs)[Leg(k, side)]
  {
    if legs != [] {
      assert legs == [legs[0]] + legs[1..];
      LegsCount(legs[1..], k, side);
    }
  }

  // --------------------------------------------------------------- leg by leg

  /** What one leg takes of its side: asks for a buy and bids for a sell, best levels first, at their own prices. */
  ghost predicate LegTakes(d: ConsumableDepth, side: OrderSide, requested: Quantity, depth: nat, fills: seq<LevelFill>, taken: seq<nat>, after: Counts) {
    var slots, rule := DepthMeaning.SlotsFor(d.book, side), Rule(side, Market, 0);
    var gone := match side case Buy => d.consumedAsks case Sell => d.consumedBids;
    && DepthMeaning.TakesOf(slots, gone, depth, rule, taken) && DepthMeaning.Sum(taken) == requested.value
    && DepthMeaning.FillsAre(fills, slots, taken, 0, requested.unit, rule) && DepthMeaning.GoneAfter(gone, taken, after)
  }

  /** One leg's turn: it is filled whole, from the books as the legs before it left them. */
  ghost predicate LegTurn(books: Books, leg: Leg, requested: Quantity, depth: nat, fill: LegFill, next: Books) {
    && leg.instrument in books && fill.leg == leg && fill.sweep.requested == requested && fill.sweep.filled == requested.value
    && exists taken, after :: LegTakes(books[leg.instrument], leg.side, requested, depth, fill.sweep.fills, taken, after)
         && next == books[leg.instrument := match leg.side
                                            case Buy => books[leg.instrument].(consumedAsks := after)
                                            case Sell => books[leg.instrument].(consumedBids := after)]
  }

  lemma {:induction false} OneLeg(books: Books, leg: Leg, requested: Quantity, depth: nat, sweep: Sweep, next: ConsumableDepth)
    requires leg.instrument in books && Preview(books[leg.instrument], leg.side, requested, depth) == Ok(sweep)
    requires sweep.filled == requested.value && Applied(books[leg.instrument], leg.side, sweep) == Ok(next)
    ensures LegTurn(books, leg, requested, depth, LegFill(leg, sweep), books[leg.instrument := next])
  {
    var d := books[leg.instrument];
    var gone := ConsumedOf(d, leg.side);
    var taken := DepthMeaning.SweepTakes(d.book, requested, depth, MarketRule(leg.side), gone);
    var after := Consume(gone, sweep.fills).value;
    DepthMeaning.GoneIsConsumed(gone, sweep.fills, DepthMeaning.SlotsFor(d.book, leg.side), taken, requested.unit, MarketRule(leg.side), after);
    assert LegTakes(d, leg.side, requested, depth, sweep.fills, taken, after);
  }

  lemma {:induction false} NextLeg(staged: Books, legs: seq<Leg>, requested: Quantity, depth: nat, done: seq<LegFill>) returns (fill: LegFill, next: Books)
    requires var r := ExecuteLegs(staged, legs, requested, depth, done); r.Ok? && r.value.Some?
    requires legs != []
    ensures LegTurn(staged, legs[0], requested, depth, fill, next)
    ensures ExecuteLegs(staged, legs, requested, depth, done) == ExecuteLegs(next, legs[1..], requested, depth, done + [fill])
  {
    var leg := legs[0];
    var sweep := Preview(staged[leg.instrument], leg.side, requested, depth).value;
    var d := Applied(staged[leg.instrument], leg.side, sweep).value;
    OneLeg(staged, leg, requested, depth, sweep, d);
    fill, next := LegFill(leg, sweep), staged[leg.instrument := d];
  }

  /** Legs that fill do so one after the other, each with its own fill. */
  lemma {:induction false} LegTurns(books: Books, legs: seq<Leg>, requested: Quantity, depth: nat) returns (turns: seq<Books>)
    requires var r := ExecuteLegs(books, legs, requested, depth, []); r.Ok? && r.value.Some?
    ensures var (fills, after) := ExecuteLegs(books, legs, requested, depth, []).value.value;
      && |fills| == |legs| && |turns| == |legs| + 1 && turns[0] == books && turns[|legs|] == after
      && forall i :: 0 <= i < |legs| ==> LegTurn(turns[i], legs[i], requested, depth, fills[i], turns[i + 1])
  {
    turns := [books];
    var rest, staged, fills := legs, books, [];
    while rest != []
      invariant |fills| + |rest| == |legs| && rest == legs[|fills|..] && |turns| == |fills| + 1
      invariant turns[0] == books && turns[|fills|] == staged
      invariant ExecuteLegs(books, legs, requested, depth, []) == ExecuteLegs(staged, rest, requested, depth, fills)
      invariant forall j :: 0 <= j < |fills| ==> LegTurn(turns[j], legs[j], requested, depth, fills[j], turns[j + 1])
      decreases |rest|
    {
      var fill, next := NextLeg(staged, rest, requested, depth, fills);
      assert rest[0] == legs[|fills|];
      rest, staged, fills, turns := rest[1..], next, fills + [fill], turns + [next];
    }
  }

  /** What a side offers to legs that sell it or buy it: of each of its levels, down to the depth or the first empty slot, what
      is displayed less what is consumed; a leg that buys is offered the asks. */
  lemma {:induction false} SideOffersAre(d: ConsumableDepth, side: OrderSide, depth: nat)
    requires ValidDepth(d)
    ensures var slots, consumed := if side == Buy then d.book.asks.slots else d.book.bids.slots, if side == Buy then d.consumedAsks else d.consumedBids;
      var offers := SideOffers(d, side, depth);
      && |offers| <= 5 && |offers| <= depth && (|offers| < depth && |offers| < 5 ==> slots[|offers|] == None)
      && forall i :: 0 <= i < |offers| ==> slots[i].Some? && offers[i] == slots[i].value.displayed.value - consumed[i]
  {
    var slots, consumed, rule := DepthMeaning.SlotsFor(d.book, side), ConsumedOf(d, side), MarketRule(side);
    var levels, offers := SideLevels(d.book, side), SideOffers(d, side, depth);
    assert SideWithin(d, side);
    DepthMeaning.OffersAreSlots(d.book, consumed, 0, depth, rule);
    OffersBounds(levels, consumed, 0, depth, rule);
    forall i | 0 <= i < |offers| ensures slots[i].Some? && offers[i] == slots[i].value.displayed.value - consumed[i] {
      assert slots[i] == Some(levels[i]) && offers[i] == Left(levels[0 + i], consumed[0 + i]);
    }
    MarketEnds(slots, depth, rule, |offers|);
  }

  /** Nothing but the depth and an empty slot ends the levels of a market sweep without a delta. */
  lemma {:induction false} MarketEnds(slots: seq<Option<BookLevel>>, depth: nat, rule: Rule, n: nat)
    requires rule.orderType == Market && rule.delta == 0 && DepthMeaning.EndsAt(slots, depth, rule, n)
    ensures n < depth && n < |slots| ==> slots[n] == None
  {
  }

  // ------------------------------------------------------- books as an object

  /** Valid depth of which nothing is consumed, and every displayed quantity of the visible levels is on offer. */
  ghost predicate Untouched(d: ConsumableDepth) {
    && ValidDepth(d) && (forall c :: c in d.consumedBids + d.consumedAsks ==> c == 0)
    && forall side, depth: nat :: AllOffered(d, side, depth)
  }

  ghost predicate AllOffered(d: ConsumableDepth, side: OrderSide, depth: nat) {
    var levels, offers := SideLevels(d.book, side), SideOffers(d, side, depth);
    |offers| == Min(|levels|, depth) && forall i :: 0 <= i < |offers| ==> offers[i] == levels[i].displayed.value
  }

  lemma {:induction false} NothingConsumed(d: ConsumableDepth)
    requires d.consumedBids == [0, 0, 0, 0, 0] && d.consumedAsks == [0, 0, 0, 0, 0]
    ensures Untouched(d)
  {
    assert SideWithin(d, Buy) && SideWithin(d, Sell);
    forall side, depth: nat ensures AllOffered(d, side, depth) {
      EverythingOffered(d, side, depth);
    }
  }

  lemma {:induction false} EverythingOffered(d: ConsumableDepth, side: OrderSide, depth: nat)
    requires forall c :: c in ConsumedOf(d, side) ==> c == 0
    ensures AllOffered(d, side, depth)
  {
    var levels, consumed, rule := SideLevels(d.book, side), ConsumedOf(d, side), MarketRule(side);
    OffersOfAll(levels, consumed, 0, depth, rule);
    OffersBounds(levels, consumed, 0, depth, rule);
    forall i | 0 <= i < |levels| ensures Left(levels[i], consumed[i]) == levels[i].displayed.value {
      assert consumed[i] in consumed;
    }
  }

  /** A market sweep reaches every visible level. */
  lemma {:induction false} OffersOfAll(levels: seq<BookLevel>, consumed: seq<nat>, index: nat, depth: nat, rule: Rule)
    requires |levels| <= |consumed| && rule.orderType == Market && rule.delta == 0
    ensures |Offers(levels, consumed, index, depth, rule)| == Max(0, Min(|levels|, depth) - index)
    decreases |levels| - index
  {
    if index < |levels| && index < depth {
      OffersOfAll(levels, consumed, index + 1, depth, rule);
      assert AdversePrice(levels[index].price, rule).Ok?;
    }
  }

  class DepthBooks {
    var books: Books

    constructor (books: Books)
      ensures this.books == books
    {
      this.books := books;
    }

    /** Publishing a snapshot discards the consumption of the one it replaces: everything it displays is on offer. */
    method Replace(instrument: InstrumentId, book: Snapshot)
      modifies this
      ensures books.Keys == old(books).Keys + {instrument} && books[instrument].book == book && Untouched(books[instrument])
      ensures forall k :: k in old(books) && k != instrument ==> books[k] == old(books)[k]
    {
      var d := ConsumableDepth(book, [0, 0, 0, 0, 0], [0, 0, 0, 0, 0]);
      NothingConsumed(d);
      books := books[instrument := d];
    }

    /** Stages clones of the legs' books, executes every leg on them, and commits only at the end. */
    method ExecuteAtomic(legs: seq<Leg>, requested: Quantity, depth: int) returns (r: Result<Option<seq<LegFill>>, DepthError>)
      modifies this
      ensures match Execute(old(books), legs, requested, depth)
        case Ok(Some((fills, after))) => r == Ok(Some(fills)) && books == after
        case Ok(None) => r == Ok(None) && books == old(books)
        case Err(e) => r == Err(e) && books == old(books)
    {
      var cloned := StageLegs(books, legs);
      if cloned == None {
        return Ok(None);
      }
      var result :- RunLegs(cloned.value, legs, requested, depth);
      if result == None {
        return Ok(None);
      }
      books := books + result.value.1;
      return Ok(Some(result.value.0));
    }
  }

  method StageLegs(books: Books, legs: seq<Leg>) returns (r: Option<Books>)
    ensures r == if exists i :: 0 <= i < |legs| && legs[i].instrument !in books then None else Some(Staged(books, legs))
  {
    var staged: Books := map[];
    var i := 0;
    while i < |legs|
      invariant 0 <= i <= |legs| && staged == Staged(books, legs[..i])
      invariant forall j :: 0 <= j < i ==> legs[j].instrument in books
    {
      if legs[i].instrument !in books {
        return None;
      }
      assert legs[..i + 1] == legs[..i] + [legs[i]];
      staged := staged[legs[i].instrument := books[legs[i].instrument]];
      i := i + 1;
    }
    assert legs[..i] == legs;
    return Some(staged);
  }

  method RunLegs(books: Books, legs: seq<Leg>, requested: Quantity, depth: int) returns (r: Executed)
    ensures r == ExecuteLegs(books, legs, requested, depth, [])
  {
    var staged, fills := books, [];
    var i := 0;
    while i < |legs|
      invariant 0 <= i <= |legs|
      invariant ExecuteLegs(books, legs, requested, depth, []) == ExecuteLegs(staged, legs[i..], requested, depth, fills)
    {
      var leg := legs[i];
      assert legs[i..][0] == leg && legs[i..][1..] == legs[i + 1..];
      if leg.instrument !in staged {
        return Ok(None);
      }
      var sweep :- PreviewLeg(staged[leg.instrument], leg.side, requested, depth);
      if sweep.filled != requested.value {
        return Ok(None);
      }
      var next :- ApplySweep(staged[leg.instrument], leg.side, sweep);
      staged, fills := staged[leg.instrument := next], fills + [LegFill(leg, sweep)];
      i := i + 1;
    }
    return Ok(Some((fills, staged)));
  }

  method ApplySweep(d: ConsumableDepth, side: OrderSide, sweep: Sweep) returns (r: Result<ConsumableDepth, DepthError>)
    ensures r == Applied(d, side, sweep)
  {
    var consumed: Counts := ConsumedOf(d, side);
    var i := 0;
    while i < |sweep.fills|
      invariant 0 <= i <= |sweep.fills|
      invariant Consume(ConsumedOf(d, side), sweep.fills) == Consume(consumed, sweep.fills[i..])
    {
      var fill := sweep.fills[i];
      assert sweep.fills[i..][0] == fill && sweep.fills[i..][1..] == sweep.fills[i + 1..];
      var index := fill.levelIndex - 1;
      if !(0 <= index < BOOK_DEPTH) || !IsU64(consumed[index] + fill.quantity.value) {
        return Err(QuantityOverflow);
      }
      consumed := consumed[index := consumed[index] + fill.quantity.value];
      i := i + 1;
    }
    return Ok(WithConsumed(d, side, consumed));
  }

  method PreviewLeg(d: ConsumableDepth, side: OrderSide, requested: Quantity, depth: int) returns (r: Result<Sweep, DepthError>)
    ensures r == Preview(d, side, requested, depth)
  {
    r := SweepMarketableDepth(d.book, requested, depth, MarketRule(side), ConsumedOf(d, side));
  }
}
