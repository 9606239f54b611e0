/**
 Transaction tax with first-in-first-out day-trade matching. A sell is first taxed on what
 earlier buys of its date cover; later buys re-assess it and book the difference.
 */
module DayTradeTax {
  import opened Wrappers
  import opened MachineIntegers
  import opened MarketTypes
  import opened AccountingErrors
  import opened ExactArithmetic
  import opened PositionAccounting
  import CivilDate

  datatype TaxModel = TaxModel(ordinary: ChargeModel, dayTrade: ChargeModel, offsetMinutes: int, validThrough: int,
                               eligible: bool, eligibleDates: Option<set<int>>)

  /** What the constructor of the source enforces. */
  predicate ValidTaxModel(m: TaxModel) {
    && m.ordinary.basis == NotionalRate && m.dayTrade.basis == NotionalRate
    && m.ordinary.sides == SellOnly && m.dayTrade.sides == SellOnly
    && m.dayTrade.rate <= m.ordinary.rate
    && ValidCharge(m.ordinary) && ValidCharge(m.dayTrade)
    && -1439 <= m.offsetMinutes <= 1439
  }

  const MICROS_PER_MINUTE: int := 60_000_000
  const MICROS_PER_DAY: int := 86_400_000_000

  function TradingDate(matchTime: int, offsetMinutes: int): Result<int, AccountingError> {
    var local := matchTime + offsetMinutes * MICROS_PER_MINUTE;
    var days := local / MICROS_PER_DAY;
    if IsI64(local) && CivilDate.MIN_EPOCH_DAYS <= days <= CivilDate.MAX_EPOCH_DAYS then Ok(days) else Err(InvalidTradingDate)
  }

  predicate Covers(m: TaxModel, date: int) {
    (m.eligible || (m.eligibleDates.Some? && date in m.eligibleDates.value)) && date <= m.validThrough
  }

  datatype DayTradeBuy = DayTradeBuy(date: int, remaining: nat)
  datatype DayTradeSell = DayTradeSell(date: int, price: int, quantity: nat, matched: nat, assessed: int)

  /** The tax on one part of a sell; no quantity, no charge (not even its minimum). */
  function PartTax(price: int, quantity: nat, e: Economics, charge: ChargeModel): Result<int, AccountingError>
    requires ValidCharge(charge)
  {
    if quantity == 0 then Ok(0) else
    var notional :- ScaleByQuantity(price, quantity, e);
    Charge(notional, quantity, Sell, charge)
  }

  function SplitSellTax(price: int, quantity: nat, matched: nat, e: Economics, m: TaxModel): Result<int, AccountingError>
    requires ValidTaxModel(m)
  {
    if quantity < matched then Err(Overflow) else
    var dayTrade :- PartTax(price, matched, e, m.dayTrade);
    var ordinary :- PartTax(price, quantity - matched, e, m.ordinary);
    Checked(dayTrade + ordinary)
  }

  // ------------------------------------------------------------ queue updates

  /** The tax of a sell from its price, quantity and day-trade matched quantity. */
  type Assessment = (int, nat, nat) -> Result<int, AccountingError>

  function SplitAssessment(e: Economics, m: TaxModel): Assessment
    requires ValidTaxModel(m)
  {
    (price: int, quantity: nat, matched: nat) => SplitSellTax(price, quantity, matched, e, m)
  }

  datatype Reassessed = Reassessed(sell: DayTradeSell, adjustment: int)

  /** Matches more of one sell and adds the change of its tax to the adjustment. */
  function Reassess(s: DayTradeSell, matched: nat, adjustment: int, tax: Assessment):
    Result<Reassessed, AccountingError>
  {
    var assessed :- tax(s.price, s.quantity, s.matched + matched);
    var difference :- Checked(assessed - s.assessed);
    var total :- Checked(adjustment + difference);
    Ok(Reassessed(s.(matched := s.matched + matched, assessed := assessed), total))
  }

  datatype Rematch = Rematch(sells: seq<DayTradeSell>, remaining: nat, adjustment: int)

  /** A buy is matched against the open sells of its date, oldest first. */
  function RematchSells(sells: seq<DayTradeSell>, date: int, remaining: nat, adjustment: int, tax: Assessment):
    Result<Rematch, AccountingError>
  {
    if sells == [] then Ok(Rematch([], remaining, adjustment)) else
    var s := sells[0];
    if remaining == 0 || s.date != date || s.matched >= s.quantity then
      var rest :- RematchSells(sells[1..], date, remaining, adjustment, tax);
      Ok(rest.(sells := [s] + rest.sells))
    else
      var matched := Min(remaining, s.quantity - s.matched);
      var first :- Reassess(s, matched, adjustment, tax);
      var rest :- RematchSells(sells[1..], date, remaining - matched, first.adjustment, tax);
      Ok(rest.(sells := [first.sell] + rest.sells))
  }

  datatype Consumed = Consumed(buys: seq<DayTradeBuy>, remaining: nat)

  /** A sell consumes the open buys of its date, oldest first. */
  function ConsumeBuys(buys: seq<DayTradeBuy>, date: int, remaining: nat): Consumed {
    if buys == [] then Consumed([], remaining) else
    var b := buys[0];
    var matched := if b.date == date then Min(remaining, b.remaining) else 0;
    var rest := ConsumeBuys(buys[1..], date, remaining - matched);
    rest.(buys := [b.(remaining := b.remaining - matched)] + rest.buys)
  }

  datatype TaxOutcome = TaxOutcome(tax: int, buys: seq<DayTradeBuy>, sells: seq<DayTradeSell>)

  function BuyTax(date: int, quantity: nat, buys: seq<DayTradeBuy>, sells: seq<DayTradeSell>, tax: Assessment):
    Result<TaxOutcome, AccountingError>
  {
    var r :- RematchSells(sells, date, quantity, 0, tax);
    Ok(TaxOutcome(r.adjustment, if r.remaining > 0 then buys + [DayTradeBuy(date, r.remaining)] else buys, r.sells))
  }

  function SellTax(date: int, price: int, quantity: nat, buys: seq<DayTradeBuy>, sells: seq<DayTradeSell>, tax: Assessment): Result<TaxOutcome, AccountingError>
  {
    var c := ConsumeBuys(buys, date, quantity);
    ConsumeBuysBalance(buys, date, quantity, date);
    var assessed :- tax(price, quantity, quantity - c.remaining);
    var queued := if c.remaining > 0 then [DayTradeSell(date, price, quantity, quantity - c.remaining, assessed)] else [];
    Ok(TaxOutcome(assessed, c.buys, sells + queued))
  }

  function TaxForFill(fill: FillRecord, notional: int, buys: seq<DayTradeBuy>, sells: seq<DayTradeSell>, e: Economics,
                      m: TaxModel): Result<TaxOutcome, AccountingError>
    requires ValidTaxModel(m)
  {
    var date :- TradingDate(fill.matchTime, m.offsetMinutes);
    if !Covers(m, date) then
      var tax :- Charge(notional, fill.quantity.value, fill.side, m.ordinary);
      Ok(TaxOutcome(tax, buys, sells))
    else if fill.side == Buy then
      BuyTax(date, fill.quantity.value, buys, sells, SplitAssessment(e, m))
    else
      SellTax(date, fill.price, fill.quantity.value, buys, sells, SplitAssessment(e, m))
  }

  // ------------------------------------------------------- the loops of the source

  method RematchSellsInPlace(sells: seq<DayTradeSell>, date: int, quantity: nat, tax: Assessment)
    returns (r: Result<Rematch, AccountingError>)
    ensures r == RematchSells(sells, date, quantity, 0, tax)
  {
    var queue, remaining, adjustment := sells, quantity, 0;
    var i := 0;
    ghost var whole, done, rest := RematchSells(sells, date, quantity, 0, tax), [], sells;
    PrependNothing(whole);
    while i < |queue|
      invariant |done| == i && queue == done + rest && remaining >= 0
      invariant whole == Prepend(done, RematchSells(rest, date, remaining, adjustment, tax))
      decreases |rest|
    {
      var s := queue[i];
      ghost var tail := rest[1..];
      assert rest == [s] + tail;
      if s.date == date && s.matched < s.quantity {
        if remaining == 0 {
          RematchNothing(rest, date, adjustment, tax);
          return Ok(Rematch(queue, remaining, adjustment));
        }
        var matched := Min(remaining, s.quantity - s.matched);
        var first :- Reassess(s, matched, adjustment, tax);
        RematchOne(s, tail, date, remaining, adjustment, tax, first);
        adjustment, queue, remaining := first.adjustment, queue[i := first.sell], remaining - matched;
        Replaced(done, s, tail, first.sell);
      } else {
        RematchSkips(s, tail, date, remaining, adjustment, tax);
      }
      PrependAssociates(done, [queue[i]], RematchSells(tail, date, remaining, adjustment, tax));
      done, rest, i := done + [queue[i]], tail, i + 1;
    }
    assert rest == [];
    r := Ok(Rematch(queue, remaining, adjustment));
  }

  lemma {:induction false} RematchOne(s: DayTradeSell, tail: seq<DayTradeSell>, date: int, remaining: nat, adjustment: int, tax: Assessment,
                                      first: Reassessed)
    requires remaining > 0 && s.date == date && s.matched < s.quantity
    requires Reassess(s, Min(remaining, s.quantity - s.matched), adjustment, tax) == Ok(first)
    ensures RematchSells([s] + tail, date, remaining, adjustment, tax)
      == Prepend([first.sell], RematchSells(tail, date, remaining - Min(remaining, s.quantity - s.matched), first.adjustment, tax))
  {
    assert ([s] + tail)[1..] == tail;
  }

  lemma {:induction false} RematchSkips(s: DayTradeSell, tail: seq<DayTradeSell>, date: int, remaining: nat, adjustment: int, tax: Assessment)
    requires !(s.date == date && s.matched < s.quantity)
    ensures RematchSells([s] + tail, date, remaining, adjustment, tax) == Prepend([s], RematchSells(tail, date, remaining, adjustment, tax))
  {
    assert ([s] + tail)[1..] == tail;
  }

  ghost function Prepend(done: seq<DayTradeSell>, r: Result<Rematch, AccountingError>): Result<Rematch, AccountingError> {
    match r
    case Ok(v) => Ok(v.(sells := done + v.sells))
    case Err(_) => r
  }

  lemma {:induction false} PrependNothing(r: Result<Rematch, AccountingError>)
    ensures Prepend([], r) == r
  {
    if r.Ok? {
      assert [] + r.value.sells == r.value.sells;
    }
  }

  lemma {:induction false} PrependAssociates(a: seq<DayTradeSell>, b: seq<DayTradeSell>, r: Result<Rematch, AccountingError>)
    ensures Prepend(a, Prepend(b, r)) == Prepend(a + b, r)
  {
    if r.Ok? {
      assert a + (b + r.value.sells) == (a + b) + r.value.sells;
    }
  }

  lemma {:induction false} RematchNothing(sells: seq<DayTradeSell>, date: int, adjustment: int, tax: Assessment)
    ensures RematchSells(sells, date, 0, adjustment, tax) == Ok(Rematch(sells, 0, adjustment))
  {
    if sells != [] {
      RematchNothing(sells[1..], date, adjustment, tax);
      assert [sells[0]] + sells[1..] == sells;
    }
  }

  method ConsumeBuysInPlace(buys: seq<DayTradeBuy>, date: int, quantity: nat) returns (queue: seq<DayTradeBuy>, remaining: nat)
    ensures Consumed(queue, remaining) == ConsumeBuys(buys, date, quantity)
  {
    queue, remaining := buys, quantity;
    var i := 0;
    ghost var whole, done, rest := ConsumeBuys(buys, date, quantity), [], buys;
    while i < |queue|
      invariant |done| == i && queue == done + rest
      invariant whole == Preceded(done, ConsumeBuys(rest, date, remaining))
      decreases |rest|
    {
      var b := queue[i];
      ghost var tail := rest[1..];
      assert rest == [b] + tail;
      if b.date == date && b.remaining > 0 && remaining == 0 {
        ConsumeNothing(rest, date);
        PrecededMeaning(done, Consumed(rest, 0));
        return;
      }
      var matched := if b.date == date then Min(remaining, b.remaining) else 0;
      var next := b.(remaining := b.remaining - matched);
      ConsumeNext(done, b, tail, date, remaining, next, matched);
      queue, remaining := queue[i := next], remaining - matched;
      Replaced(done, b, tail, next);
      done, rest, i := done + [next], tail, i + 1;
    }
    assert rest == [] && queue == done + [];
    PrecededMeaning(done, Consumed([], remaining));
  }

  lemma {:induction false} Replaced<T>(done: seq<T>, b: T, tail: seq<T>, next: T)
    ensures (done + ([b] + tail))[|done| := next] == done + [next] + tail
  {
  }

  /** What was consumed of `done` and then of the rest. */
  ghost function Preceded(done: seq<DayTradeBuy>, c: Consumed): Consumed
    decreases |done|
  {
    if done == [] then c else Preceded(done[..|done| - 1], c.(buys := [done[|done| - 1]] + c.buys))
  }

  lemma {:induction false} PrecededMeaning(done: seq<DayTradeBuy>, c: Consumed)
    ensures Preceded(done, c) == c.(buys := done + c.buys)
    decreases |done|
  {
    if done == [] {
      assert [] + c.buys == c.buys;
    } else {
      var init, last := done[..|done| - 1], done[|done| - 1];
      PrecededMeaning(init, c.(buys := [last] + c.buys));
      assert init + ([last] + c.buys) == done + c.buys;
    }
  }

  lemma {:induction false} ConsumeNext(done: seq<DayTradeBuy>, b: DayTradeBuy, tail: seq<DayTradeBuy>, date: int, remaining: nat,
                                       next: DayTradeBuy, matched: nat)
    requires matched == (if b.date == date then Min(remaining, b.remaining) else 0) && next == b.(remaining := b.remaining - matched)
    ensures Preceded(done, ConsumeBuys([b] + tail, date, remaining))
         == Preceded(done + [next], ConsumeBuys(tail, date, remaining - matched))
  {
    assert ([b] + tail)[1..] == tail && (done + [next])[..|done|] == done;
  }

  lemma {:induction false} ConsumeNothing(buys: seq<DayTradeBuy>, date: int)
    ensures ConsumeBuys(buys, date, 0) == Consumed(buys, 0)
  {
    if buys != [] {
      ConsumeNothing(buys[1..], date);
      assert [buys[0]] + buys[1..] == buys;
    }
  }

  // ------------------------------------------------------------ open quantities

  function OpenBuys(buys: seq<DayTradeBuy>, date: int): nat {
    if buys == [] then 0 else (if buys[0].date == date then buys[0].remaining else 0) + OpenBuys(buys[1..], date)
  }

  lemma {:induction false} ConsumeBuysBalance(buys: seq<DayTradeBuy>, date: int, quantity: nat, other: int)
    ensures var c := ConsumeBuys(buys, date, quantity);
      && c.remaining == quantity - Min(quantity, OpenBuys(buys, date))
      && OpenBuys(c.buys, other) == OpenBuys(buys, other) - (if other == date then quantity - c.remaining else 0)
  {
    if buys != [] {
      var b := buys[0];
      var matched := if b.date == date then Min(quantity, b.remaining) else 0;
      ConsumeBuysBalance(buys[1..], date, quantity - matched, other);
      ConsumeBuysBalance(buys[1..], date, quantity - matched, date);
      var rest := ConsumeBuys(buys[1..], date, quantity - matched);
      assert ConsumeBuys(buys, date, quantity).buys[1..] == rest.buys;
    }
  }
}
