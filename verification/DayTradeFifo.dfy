/**
 What first-in-first-out matching amounts to, whatever the interleaving of buys and sells:
 the k-th sell of a date is finally matched with what the date's buys exceed the sells
 before it, and the tax booked, refunds included, is the tax of those final quantities.
 */
module DayTradeFifo {
  import opened Wrappers
  import opened MachineIntegers
  import opened MarketTypes
  import opened AccountingErrors
  import opened ExactArithmetic
  import opened PositionAccounting
  import opened DayTradeTax

  // ------------------------------------------------------------- a whole run

  datatype TaxState = TaxState(total: int, buys: seq<DayTradeBuy>, sells: seq<DayTradeSell>)

  function TaxStep(st: TaxState, fill: FillRecord, e: Economics, m: TaxModel): Result<TaxState, AccountingError>
    requires ValidTaxModel(m)
  {
    var notional :- ScaleByQuantity(fill.price, fill.quantity.value, e);
    var outcome :- TaxForFill(fill, notional, st.buys, st.sells, e, m);
    Ok(TaxState(st.total + outcome.tax, outcome.buys, outcome.sells))
  }

  function TaxRun(fills: seq<FillRecord>, e: Economics, m: TaxModel): Result<TaxState, AccountingError>
    requires ValidTaxModel(m)
  {
    if fills == [] then Ok(TaxState(0, [], [])) else
    var st :- TaxRun(fills[..|fills| - 1], e, m);
    TaxStep(st, fills[|fills| - 1], e, m)
  }

  // ------------------------------------------------- the independent reference

  function DateOf(fill: FillRecord, m: TaxModel): int {
    match TradingDate(fill.matchTime, m.offsetMinutes)
    case Ok(date) => date
    case Err(_) => 0
  }

  function BoughtOn(fills: seq<FillRecord>, m: TaxModel, date: int): nat {
    if fills == [] then 0 else
    var last := fills[|fills| - 1];
    BoughtOn(fills[..|fills| - 1], m, date)
    + (if last.side == Buy && DateOf(last, m) == date then last.quantity.value else 0)
  }

  /** The bought quantity that may be matched on a date: none where the model does not apply. */
  function Budget(fills: seq<FillRecord>, m: TaxModel, date: int): nat {
    if Covers(m, date) then BoughtOn(fills, m, date) else 0
  }

  datatype Sale = Sale(date: int, price: int, quantity: nat)

  function SalesOf(fills: seq<FillRecord>, m: TaxModel): seq<Sale> {
    if fills == [] then [] else
    var last := fills[|fills| - 1];
    SalesOf(fills[..|fills| - 1], m)
    + (if last.side == Sell then [Sale(DateOf(last, m), last.price, last.quantity.value)] else [])
  }

  function SoldOn(sales: seq<Sale>, date: int): nat {
    if sales == [] then 0 else (if sales[0].date == date then sales[0].quantity else 0) + SoldOn(sales[1..], date)
  }

  /** The final matched quantity of sale `k`, from the totals alone. */
  function FinalMatched(fills: seq<FillRecord>, m: TaxModel, k: nat): nat
    requires k < |SalesOf(fills, m)|
  {
    var sales := SalesOf(fills, m);
    Min(sales[k].quantity, Max(0, Budget(fills, m, sales[k].date) - SoldOn(sales[..k], sales[k].date)))
  }

  // ----------------------------------------------- history of every sell so far

  function SaleOf(s: DayTradeSell): Sale {
    Sale(s.date, s.price, s.quantity)
  }

  function Sales(history: seq<DayTradeSell>): seq<Sale> {
    if history == [] then [] else [SaleOf(history[0])] + Sales(history[1..])
  }

  function TaxSum(history: seq<DayTradeSell>): int {
    if history == [] then 0 else history[0].assessed + TaxSum(history[1..])
  }

  function MatchedOn(history: seq<DayTradeSell>, date: int): nat {
    if history == [] then 0 else (if history[0].date == date then history[0].matched else 0) + MatchedOn(history[1..], date)
  }

  function OpenSells(queue: seq<DayTradeSell>, date: int): int {
    if queue == [] then 0
    else (if queue[0].date == date then queue[0].quantity - queue[0].matched else 0) + OpenSells(queue[1..], date)
  }

  ghost predicate Assessed(history: seq<DayTradeSell>, tax: Assessment)
  {
    forall s :: s in history ==> IsAssessed(s, tax)
  }

  ghost predicate IsAssessed(s: DayTradeSell, tax: Assessment)
  {
    tax(s.price, s.quantity, s.matched) == Ok(s.assessed)
  }

  /** The sells of a date share a budget of bought quantity, oldest first. */
  ghost predicate Fifo(history: seq<DayTradeSell>, date: int, budget: nat) {
    if history == [] then true else
    var s := history[0];
    if s.date != date then Fifo(history[1..], date, budget)
    else s.matched == Min(s.quantity, budget) && Fifo(history[1..], date, budget - s.matched)
  }

  /** The queue of the source drops only sells that no later buy can match. */
  ghost predicate Tracks(history: seq<DayTradeSell>, queue: seq<DayTradeSell>, m: TaxModel) {
    if history == [] then queue == [] else
    || (Settled(history[0], m) && Tracks(history[1..], queue, m))
    || (queue != [] && queue[0] == history[0] && Tracks(history[1..], queue[1..], m))
  }

  ghost predicate Settled(s: DayTradeSell, m: TaxModel) {
    s.matched == s.quantity || !Covers(m, s.date)
  }

  lemma {:induction false} FifoTotals(history: seq<DayTradeSell>, date: int, budget: nat)
    requires Fifo(history, date, budget)
    ensures MatchedOn(history, date) == Min(budget, SoldOn(Sales(history), date))
  {
    if history != [] {
      var s := history[0];
      FifoTotals(history[1..], date, if s.date == date then budget - s.matched else budget);
      assert Sales(history)[1..] == Sales(history[1..]);
    }
  }

  lemma {:induction false} FifoPointwise(history: seq<DayTradeSell>, date: int, budget: nat, k: nat)
    requires Fifo(history, date, budget) && k < |history| && history[k].date == date
    ensures |Sales(history)| == |history|
    ensures history[k].matched == Min(history[k].quantity, Max(0, budget - SoldOn(Sales(history)[..k], date)))
  {
    var s := history[0];
    SalesLength(history);
    assert Sales(history)[1..] == Sales(history[1..]);
    if k > 0 {
      assert Sales(history)[..k][1..] == Sales(history[1..])[..k - 1];
      assert history[k] == history[1..][k - 1];
      FifoPointwise(history[1..], date, if s.date == date then budget - s.matched else budget, k - 1);
    }
  }

  lemma {:induction false} SalesLength(history: seq<DayTradeSell>)
    ensures |Sales(history)| == |history|
    ensures forall k :: 0 <= k < |history| ==> Sales(history)[k] == SaleOf(history[k])
  {
    if history != [] {
      SalesLength(history[1..]);
    }
  }

  lemma {:induction false} TracksOpenSells(history: seq<DayTradeSell>, queue: seq<DayTradeSell>, m: TaxModel, date: int)
    requires Tracks(history, queue, m) && Covers(m, date)
    ensures OpenSells(queue, date) == SoldOn(Sales(history), date) - MatchedOn(history, date)
  {
    if history != [] {
      assert Sales(history)[1..] == Sales(history[1..]);
      if Settled(history[0], m) && Tracks(history[1..], queue, m) {
        TracksOpenSells(history[1..], queue, m, date);
      } else {
        TracksOpenSells(history[1..], queue[1..], m, date);
      }
    }
  }

  // -------------------------------------------------------- one fill's effect

  /** `next` is `history` after a buy of `quantity` on `date`: the same sells, a larger budget,
      re-assessed taxes whose change is `adjustment`, and `remaining` that no sell could take. */
  ghost predicate Reassigned(history: seq<DayTradeSell>, next: seq<DayTradeSell>, date: int, budget: nat, quantity: nat,
                             adjustment: int, remaining: nat, tax: Assessment)
  {
    && Sales(next) == Sales(history)
    && Fifo(next, date, budget + quantity)
    && Assessed(next, tax)
    && (forall other, b: nat {:trigger Fifo(next, other, b)} :: other != date && Fifo(history, other, b) ==> Fifo(next, other, b))
    && TaxSum(next) - TaxSum(history) == adjustment
    && remaining == Max(0, budget + quantity - SoldOn(Sales(history), date)) - Max(0, budget - SoldOn(Sales(history), date))
  }

  /** How much of `quantity` the oldest sell takes. */
  function Taken(s: DayTradeSell, date: int, quantity: nat): nat {
    if s.date == date && s.matched < s.quantity then Min(quantity, s.quantity - s.matched) else 0
  }

  lemma {:induction false} ReassignOldest(s: DayTradeSell, older: seq<DayTradeSell>, head: DayTradeSell, tail: seq<DayTradeSell>, date: int,
                       budget: nat, quantity: nat, adjustment: int, remaining: nat, tax: Assessment)
    requires Fifo([s] + older, date, budget)
    requires SaleOf(head) == SaleOf(s) && head.matched == s.matched + Taken(s, date, quantity) && IsAssessed(head, tax)
    requires Reassigned(older, tail, date, if s.date == date then budget - s.matched else budget,
                        quantity - Taken(s, date, quantity), adjustment, remaining, tax)
    ensures Reassigned([s] + older, [head] + tail, date, budget, quantity, adjustment + head.assessed - s.assessed, remaining, tax)
  {
    var history, next := [s] + older, [head] + tail;
    assert history[1..] == older && next[1..] == tail;
    assert Sales(history)[1..] == Sales(older);
    forall other, b: nat {:trigger Fifo(next, other, b)} | other != date && Fifo(history, other, b)
      ensures Fifo(next, other, b)
    {
      assert Fifo(tail, other, if s.date == other then b - s.matched else b);
    }
  }

  lemma {:induction false} RematchHead(queue: seq<DayTradeSell>, date: int, quantity: nat, adjustment: int, tax: Assessment)
    returns (head: DayTradeSell, adjustment1: int, rest: Rematch)
    requires queue != [] && IsAssessed(queue[0], tax) && RematchSells(queue, date, quantity, adjustment, tax).Ok?
    ensures var taken := Taken(queue[0], date, quantity);
      && RematchSells(queue[1..], date, quantity - taken, adjustment1, tax) == Ok(rest)
      && RematchSells(queue, date, quantity, adjustment, tax).value == rest.(sells := [head] + rest.sells)
      && SaleOf(head) == SaleOf(queue[0]) && head.matched == queue[0].matched + taken && IsAssessed(head, tax)
      && adjustment1 - adjustment == head.assessed - queue[0].assessed
  {
    var taken := Taken(queue[0], date, quantity);
    head, adjustment1 := queue[0], adjustment;
    if taken > 0 {
      var first := Reassess(queue[0], taken, adjustment, tax).value;
      head, adjustment1 := first.sell, first.adjustment;
    }
    rest := RematchSells(queue[1..], date, quantity - taken, adjustment1, tax).value;
  }

  lemma {:induction false} RematchReassigns(history: seq<DayTradeSell>, queue: seq<DayTradeSell>, date: int, quantity: nat,
                                            adjustment: int, budget: nat, tax: Assessment, m: TaxModel)
    returns (next: seq<DayTradeSell>)
    requires Covers(m, date)
    requires Tracks(history, queue, m) && Fifo(history, date, budget) && Assessed(history, tax)
    requires RematchSells(queue, date, quantity, adjustment, tax).Ok?
    ensures var r := RematchSells(queue, date, quantity, adjustment, tax).value;
      && Tracks(next, r.sells, m)
      && Reassigned(history, next, date, budget, quantity, r.adjustment - adjustment, r.remaining, tax)
    decreases history
  {
    if history == [] {
      return [];
    }
    var s, older := history[0], history[1..];
    assert history == [s] + older && IsAssessed(s, tax);
    var left := if s.date == date then budget - s.matched else budget;
    var r := RematchSells(queue, date, quantity, adjustment, tax).value;
    if Settled(s, m) && Tracks(older, queue, m) {
      var tail := RematchReassigns(older, queue, date, quantity, adjustment, left, tax, m);
      ReassignOldest(s, older, s, tail, date, budget, quantity, r.adjustment - adjustment, r.remaining, tax);
      TracksNext(s, tail, r.sells, r.sells, m);
      next := [s] + tail;
    } else {
      var head, adjustment1, rest := RematchHead(queue, date, quantity, adjustment, tax);
      var tail := RematchReassigns(older, queue[1..], date, quantity - Taken(s, date, quantity), adjustment1, left, tax, m);
      ReassignOldest(s, older, head, tail, date, budget, quantity, rest.adjustment - adjustment1, rest.remaining, tax);
      TracksNext(head, tail, rest.sells, r.sells, m);
      next := [head] + tail;
    }
  }

  lemma {:induction false} TracksNext(head: DayTradeSell, tail: seq<DayTradeSell>, rest: seq<DayTradeSell>, queue: seq<DayTradeSell>, m: TaxModel)
    requires Tracks(tail, rest, m) && ((Settled(head, m) && queue == rest) || queue == [head] + rest)
    ensures Tracks([head] + tail, queue, m)
  {
    assert ([head] + tail)[1..] == tail;
    assert queue == [head] + rest ==> queue[1..] == rest;
  }

  // ----------------------------------------------------------- along the run

  lemma {:induction false} FifoAppend(history: seq<DayTradeSell>, s: DayTradeSell, date: int, budget: nat)
    requires Fifo(history, date, budget)
    requires s.date == date ==> s.matched == Min(s.quantity, Max(0, budget - SoldOn(Sales(history), date)))
    ensures Fifo(history + [s], date, budget)
  {
    if history != [] {
      var first := history[0];
      assert (history + [s])[1..] == history[1..] + [s] && Sales(history)[1..] == Sales(history[1..]);
      FifoAppend(history[1..], s, date, if first.date == date then budget - first.matched else budget);
    } else {
      assert ([] + [s])[1..] == [];
    }
  }

  lemma {:induction false} SalesAppend(history: seq<DayTradeSell>, s: DayTradeSell)
    ensures Sales(history + [s]) == Sales(history) + [SaleOf(s)]
    ensures TaxSum(history + [s]) == TaxSum(history) + s.assessed
  {
    if history != [] {
      assert (history + [s])[1..] == history[1..] + [s];
      SalesAppend(history[1..], s);
    }
  }

  lemma {:induction false} SoldOnAppend(sales: seq<Sale>, last: Sale, date: int)
    ensures SoldOn(sales + [last], date) == SoldOn(sales, date) + (if last.date == date then last.quantity else 0)
  {
    if sales != [] {
      assert (sales + [last])[1..] == sales[1..] + [last];
      SoldOnAppend(sales[1..], last, date);
    }
  }

  lemma {:induction false} TracksAppend(history: seq<DayTradeSell>, queue: seq<DayTradeSell>, s: DayTradeSell, kept: bool, m: TaxModel)
    requires Tracks(history, queue, m) && (kept || Settled(s, m))
    ensures Tracks(history + [s], if kept then queue + [s] else queue, m)
  {
    var next := if kept then queue + [s] else queue;
    if history == [] {
      assert (history + [s])[1..] == [] && (kept ==> next[1..] == []);
    } else {
      assert (history + [s])[1..] == history[1..] + [s];
      if Settled(history[0], m) && Tracks(history[1..], queue, m) {
        TracksAppend(history[1..], queue, s, kept, m);
      } else {
        TracksAppend(history[1..], queue[1..], s, kept, m);
        assert next[1..] == if kept then queue[1..] + [s] else queue[1..];
      }
    }
  }

  /** What ties the state after some fills to the history of every sell in them. */
  ghost predicate Explains(history: seq<DayTradeSell>, fills: seq<FillRecord>, st: TaxState, tax: Assessment, m: TaxModel) {
    && Sales(history) == SalesOf(fills, m)
    && Assessed(history, tax)
    && TaxSum(history) == st.total
    && Tracks(history, st.sells, m)
    && (forall date :: Balanced(history, fills, st.buys, m, date))
  }

  ghost predicate Balanced(history: seq<DayTradeSell>, fills: seq<FillRecord>, buys: seq<DayTradeBuy>, m: TaxModel, date: int) {
    && Fifo(history, date, Budget(fills, m, date))
    && OpenBuys(buys, date) == Max(0, Budget(fills, m, date) - SoldOn(Sales(history), date))
  }

  lemma {:induction false} OpenBuysAppend(buys: seq<DayTradeBuy>, b: DayTradeBuy, date: int)
    ensures OpenBuys(buys + [b], date) == OpenBuys(buys, date) + (if b.date == date then b.remaining else 0)
  {
    if buys != [] {
      assert (buys + [b])[1..] == buys[1..] + [b];
      OpenBuysAppend(buys[1..], b, date);
    }
  }

  lemma {:induction false} BuyKeepsExplanation(history: seq<DayTradeSell>, fills: seq<FillRecord>, fill: FillRecord, st: TaxState,
                            tax: Assessment, m: TaxModel) returns (next: seq<DayTradeSell>)
    requires Explains(history, fills, st, tax, m)
    requires fill.side == Buy && Covers(m, DateOf(fill, m))
    requires BuyTax(DateOf(fill, m), fill.quantity.value, st.buys, st.sells, tax).Ok?
    ensures var o := BuyTax(DateOf(fill, m), fill.quantity.value, st.buys, st.sells, tax).value;
      Explains(next, fills + [fill], TaxState(st.total + o.tax, o.buys, o.sells), tax, m)
  {
    var date, quantity, after := DateOf(fill, m), fill.quantity.value, fills + [fill];
    assert after[..|after| - 1] == fills;
    var r := RematchSells(st.sells, date, quantity, 0, tax).value;
    assert Balanced(history, fills, st.buys, m, date);
    next := RematchReassigns(history, st.sells, date, quantity, 0, Budget(fills, m, date), tax, m);
    var o := BuyTax(date, quantity, st.buys, st.sells, tax).value;
    forall other ensures Balanced(next, after, o.buys, m, other) {
      assert Balanced(history, fills, st.buys, m, other);
      OpenBuysAppend(st.buys, DayTradeBuy(date, r.remaining), other);
    }
  }

  lemma {:induction false} SellKeepsExplanation(history: seq<DayTradeSell>, fills: seq<FillRecord>, fill: FillRecord, st: TaxState,
                             tax: Assessment, m: TaxModel) returns (next: seq<DayTradeSell>)
    requires Explains(history, fills, st, tax, m)
    requires fill.side == Sell && Covers(m, DateOf(fill, m))
    requires SellTax(DateOf(fill, m), fill.price, fill.quantity.value, st.buys, st.sells, tax).Ok?
    ensures var o := SellTax(DateOf(fill, m), fill.price, fill.quantity.value, st.buys, st.sells, tax).value;
      Explains(next, fills + [fill], TaxState(st.total + o.tax, o.buys, o.sells), tax, m)
  {
    var date, quantity, after := DateOf(fill, m), fill.quantity.value, fills + [fill];
    assert after[..|after| - 1] == fills;
    var c := ConsumeBuys(st.buys, date, quantity);
    ConsumeBuysBalance(st.buys, date, quantity, date);
    var o := SellTax(date, fill.price, quantity, st.buys, st.sells, tax).value;
    var s := DayTradeSell(date, fill.price, quantity, quantity - c.remaining, o.tax);
    next := history + [s];
    SalesAppend(history, s);
    TracksAppend(history, st.sells, s, c.remaining > 0, m);
    assert o.sells == if c.remaining > 0 then st.sells + [s] else st.sells;
    forall other ensures Balanced(next, after, o.buys, m, other) {
      assert Balanced(history, fills, st.buys, m, other) && Balanced(history, fills, st.buys, m, date);
      FifoAppend(history, s, other, Budget(fills, m, other));
      SoldOnAppend(Sales(history), SaleOf(s), other);
      ConsumeBuysBalance(st.buys, date, quantity, other);
    }
  }

  /** Where the model does not apply, a buy is untaxed and a sell pays the ordinary tax of a
      sell that nothing matches. */
  lemma {:induction false} OrdinaryTaxIsUnmatched(fill: FillRecord, notional: int, tax: int, e: Economics, m: TaxModel)
    requires ValidTaxModel(m)
    requires ScaleByQuantity(fill.price, fill.quantity.value, e) == Ok(notional)
    requires Charge(notional, fill.quantity.value, fill.side, m.ordinary) == Ok(tax)
    ensures fill.side == Buy ==> tax == 0
    ensures fill.side == Sell ==> SplitSellTax(fill.price, fill.quantity.value, 0, e, m) == Ok(tax)
  {
  }

  lemma {:induction false} UncoveredKeepsExplanation(history: seq<DayTradeSell>, fills: seq<FillRecord>, fill: FillRecord, tax: int, st: TaxState,
                                  assess: Assessment, m: TaxModel) returns (next: seq<DayTradeSell>)
    requires Explains(history, fills, st, assess, m)
    requires !Covers(m, DateOf(fill, m))
    requires fill.side == Buy ==> tax == 0
    requires fill.side == Sell ==> assess(fill.price, fill.quantity.value, 0) == Ok(tax)
    ensures Explains(next, fills + [fill], TaxState(st.total + tax, st.buys, st.sells), assess, m)
  {
    var date, after := DateOf(fill, m), fills + [fill];
    assert after[..|after| - 1] == fills;
    var s := DayTradeSell(date, fill.price, fill.quantity.value, 0, tax);
    next := if fill.side == Buy then history else history + [s];
    SalesAppend(history, s);
    TracksAppend(history, st.sells, s, false, m);
    forall other ensures Balanced(next, after, st.buys, m, other) {
      assert Balanced(history, fills, st.buys, m, other);
      FifoAppend(history, s, other, Budget(fills, m, other));
      SoldOnAppend(Sales(history), SaleOf(s), other);
    }
  }

  lemma {:induction false} RunIsExplained(fills: seq<FillRecord>, e: Economics, m: TaxModel) returns (history: seq<DayTradeSell>)
    requires ValidTaxModel(m) && TaxRun(fills, e, m).Ok?
    ensures Explains(history, fills, TaxRun(fills, e, m).value, SplitAssessment(e, m), m)
  {
    history := [];
    if fills != [] {
      var before, fill := fills[..|fills| - 1], fills[|fills| - 1];
      assert fills == before + [fill];
      var tax, st := SplitAssessment(e, m), TaxRun(before, e, m).value;
      history := RunIsExplained(before, e, m);
      history := StepIsExplained(history, before, fill, st, e, m);
    }
  }

  lemma {:induction false} StepIsExplained(history: seq<DayTradeSell>, fills: seq<FillRecord>, fill: FillRecord, st: TaxState, e: Economics,
                        m: TaxModel) returns (next: seq<DayTradeSell>)
    requires ValidTaxModel(m) && TaxStep(st, fill, e, m).Ok?
    requires Explains(history, fills, st, SplitAssessment(e, m), m)
    ensures Explains(next, fills + [fill], TaxStep(st, fill, e, m).value, SplitAssessment(e, m), m)
  {
    var notional := ScaleByQuantity(fill.price, fill.quantity.value, e).value;
    var o := TaxForFill(fill, notional, st.buys, st.sells, e, m).value;
    if !Covers(m, DateOf(fill, m)) {
      OrdinaryTaxIsUnmatched(fill, notional, o.tax, e, m);
      next := UncoveredKeepsExplanation(history, fills, fill, o.tax, st, SplitAssessment(e, m), m);
    } else if fill.side == Buy {
      next := BuyKeepsExplanation(history, fills, fill, st, SplitAssessment(e, m), m);
    } else {
      next := SellKeepsExplanation(history, fills, fill, st, SplitAssessment(e, m), m);
    }
  }

  // -------------------------------------------------------------- main results

  /** The tax of the first `n` sells at their final matched quantities. */
  function FifoTax(fills: seq<FillRecord>, n: nat, assess: Assessment, m: TaxModel): Result<int, AccountingError>
    requires n <= |SalesOf(fills, m)|
  {
    if n == 0 then Ok(0) else
    var before :- FifoTax(fills, n - 1, assess, m);
    var sale := SalesOf(fills, m)[n - 1];
    var tax :- assess(sale.price, sale.quantity, FinalMatched(fills, m, n - 1));
    Ok(before + tax)
  }

  /** On every covered date the matched quantity is min(bought, sold): what stays open on one
      side is the excess of that side, and never are both sides open. */
  lemma {:induction false} MatchedIsTheSmallerSide(fills: seq<FillRecord>, e: Economics, m: TaxModel, date: int)
    requires ValidTaxModel(m) && TaxRun(fills, e, m).Ok? && Covers(m, date)
    ensures var st, bought, sold := TaxRun(fills, e, m).value, BoughtOn(fills, m, date), SoldOn(SalesOf(fills, m), date);
      && bought - OpenBuys(st.buys, date) == sold - OpenSells(st.sells, date) == Min(bought, sold)
      && (OpenBuys(st.buys, date) == 0 || OpenSells(st.sells, date) == 0)
  {
    var st := TaxRun(fills, e, m).value;
    var history := RunIsExplained(fills, e, m);
    assert Balanced(history, fills, st.buys, m, date);
    FifoTotals(history, date, BoughtOn(fills, m, date));
    TracksOpenSells(history, st.sells, m, date);
  }

  /** The booked tax telescopes: it is the tax of every sell at its final matched quantity,
      a quantity the totals alone determine. */
  lemma {:induction false} BookedTaxIsFifoTax(fills: seq<FillRecord>, e: Economics, m: TaxModel)
    requires ValidTaxModel(m) && TaxRun(fills, e, m).Ok?
    ensures FifoTax(fills, |SalesOf(fills, m)|, SplitAssessment(e, m), m) == Ok(TaxRun(fills, e, m).value.total)
  {
    var history := RunIsExplained(fills, e, m);
    SalesLength(history);
    PrefixTax(fills, history, |history|, TaxRun(fills, e, m).value, SplitAssessment(e, m), m);
    assert history[..|history|] == history;
  }

  lemma {:induction false} PrefixTax(fills: seq<FillRecord>, history: seq<DayTradeSell>, n: nat, st: TaxState, assess: Assessment,
                                     m: TaxModel)
    requires Explains(history, fills, st, assess, m) && n <= |history|
    ensures |history| == |SalesOf(fills, m)|
    ensures FifoTax(fills, n, assess, m) == Ok(TaxSum(history[..n]))
  {
    SalesLength(history);
    if n > 0 {
      PrefixTax(fills, history, n - 1, st, assess, m);
      var s := history[n - 1];
      assert Balanced(history, fills, st.buys, m, s.date) && IsAssessed(s, assess);
      FifoPointwise(history, s.date, Budget(fills, m, s.date), n - 1);
      assert history[..n] == history[..n - 1] + [s];
      SalesAppend(history[..n - 1], s);
    }
  }

  /** Only the sells in their order and the quantity bought per date matter, not how buys and
      sells were interleaved. */
  lemma {:induction false} TaxIgnoresInterleaving(fills: seq<FillRecord>, other: seq<FillRecord>, e: Economics, m: TaxModel)
    requires ValidTaxModel(m) && TaxRun(fills, e, m).Ok? && TaxRun(other, e, m).Ok?
    requires SalesOf(fills, m) == SalesOf(other, m)
    requires forall date :: BoughtOn(fills, m, date) == BoughtOn(other, m, date)
    ensures TaxRun(fills, e, m).value.total == TaxRun(other, e, m).value.total
  {
    BookedTaxIsFifoTax(fills, e, m);
    BookedTaxIsFifoTax(other, e, m);
    SameReference(fills, other, |SalesOf(fills, m)|, SplitAssessment(e, m), m);
  }

  lemma {:induction false} SameReference(fills: seq<FillRecord>, other: seq<FillRecord>, n: nat, assess: Assessment, m: TaxModel)
    requires SalesOf(fills, m) == SalesOf(other, m) && n <= |SalesOf(fills, m)|
    requires forall date :: BoughtOn(fills, m, date) == BoughtOn(other, m, date)
    ensures FifoTax(fills, n, assess, m) == FifoTax(other, n, assess, m)
  {
    if n > 0 {
      SameReference(fills, other, n - 1, assess, m);
    }
  }

  /** Refunds never exceed what was booked: the running total is never negative. */
  lemma {:induction false} BookedTaxNonNegative(fills: seq<FillRecord>, e: Economics, m: TaxModel)
    requires ValidTaxModel(m) && TaxRun(fills, e, m).Ok?
    ensures TaxRun(fills, e, m).value.total >= 0
  {
    BookedTaxIsFifoTax(fills, e, m);
    FifoTaxNonNegative(fills, |SalesOf(fills, m)|, e, m);
  }

  lemma {:induction false} FifoTaxNonNegative(fills: seq<FillRecord>, n: nat, e: Economics, m: TaxModel)
    requires ValidTaxModel(m) && n <= |SalesOf(fills, m)|
    ensures var r := FifoTax(fills, n, SplitAssessment(e, m), m); r.Ok? ==> r.value >= 0
  {
    if n > 0 {
      FifoTaxNonNegative(fills, n - 1, e, m);
      var sale, matched := SalesOf(fills, m)[n - 1], FinalMatched(fills, m, n - 1);
      SplitNonNegative(sale.price, sale.quantity, matched, e, m);
    }
  }

  lemma {:induction false} SplitNonNegative(price: int, quantity: nat, matched: nat, e: Economics, m: TaxModel)
    requires ValidTaxModel(m)
    ensures var r := SplitAssessment(e, m)(price, quantity, matched); r.Ok? ==> r.value >= 0
  {
    PartTaxNonNegative(price, matched, e, m.dayTrade);
    if matched <= quantity {
      PartTaxNonNegative(price, quantity - matched, e, m.ordinary);
    }
  }

  lemma {:induction false} PartTaxNonNegative(price: int, quantity: nat, e: Economics, charge: ChargeModel)
    requires ValidCharge(charge)
    ensures var r := PartTax(price, quantity, e, charge); r.Ok? ==> r.value >= 0
  {
  }
}
