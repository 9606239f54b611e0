/** How buys and sells of a day find each other: oldest first, each as far as it goes. */
module DayTradeQueues {
  import opened Wrappers
  import opened MachineIntegers
  import opened MarketTypes
  import opened AccountingErrors
  import opened DayTradeTax

  // --------------------------------------------------------------- queued sells

  /** One queued sell before and after a buy: only an open one of that date is matched further, and taxed again if it is. */
  ghost predicate SellGoesOn(s: DayTradeSell, t: DayTradeSell, date: int, tax: Assessment) {
    && t.date == s.date && t.price == s.price && t.quantity == s.quantity && s.matched <= t.matched
    && (t.matched > s.matched ==> s.date == date && t.matched <= s.quantity && tax(s.price, s.quantity, t.matched) == Ok(t.assessed))
    && (t.matched == s.matched ==> t == s)
  }

  ghost predicate SellIsFull(s: DayTradeSell, t: DayTradeSell, date: int) {
    s.date == date ==> t.matched >= s.quantity
  }

  function MatchedMore(sells: seq<DayTradeSell>, after: seq<DayTradeSell>): int
    requires |sells| == |after|
  {
    if sells == [] then 0 else after[0].matched - sells[0].matched + MatchedMore(sells[1..], after[1..])
  }

  function AssessedMore(sells: seq<DayTradeSell>, after: seq<DayTradeSell>): int
    requires |sells| == |after|
  {
    if sells == [] then 0 else after[0].assessed - sells[0].assessed + AssessedMore(sells[1..], after[1..])
  }

  /** Each sell goes on as it may, a later one only when the earlier ones of the date are full. */
  ghost predicate SellsGoOn(sells: seq<DayTradeSell>, after: seq<DayTradeSell>, date: int, tax: Assessment) {
    && |after| == |sells|
    && (forall i :: 0 <= i < |sells| ==> SellGoesOn(sells[i], after[i], date, tax))
    && (forall i, j :: 0 <= i < j < |sells| && after[j].matched > sells[j].matched ==> SellIsFull(sells[i], after[i], date))
  }

  /** What a buy does to the queued sells: it matches as much as there is, oldest first, and books the change of their taxes. */
  ghost predicate Rematched(sells: seq<DayTradeSell>, date: int, quantity: nat, tax: Assessment, r: Rematch, booked: int) {
    && SellsGoOn(sells, r.sells, date, tax) && MatchedMore(sells, r.sells) == quantity - r.remaining
    && (r.remaining > 0 ==> forall i :: 0 <= i < |sells| ==> SellIsFull(sells[i], r.sells[i], date))
    && booked == AssessedMore(sells, r.sells)
  }

  lemma {:induction false} RematchOldestFirst(sells: seq<DayTradeSell>, date: int, quantity: nat, adjustment: int, tax: Assessment)
    requires RematchSells(sells, date, quantity, adjustment, tax).Ok?
    ensures var r := RematchSells(sells, date, quantity, adjustment, tax).value;
      Rematched(sells, date, quantity, tax, r, r.adjustment - adjustment)
  {
    if sells != [] {
      var s, rest := sells[0], sells[1..];
      assert sells == [s] + rest;
      if quantity == 0 || s.date != date || s.matched >= s.quantity {
        RematchOldestFirst(rest, date, quantity, adjustment, tax);
        SellsJoin(s, rest, s, RematchSells(rest, date, quantity, adjustment, tax).value, date, quantity, tax, 0, quantity,
                  RematchSells(sells, date, quantity, adjustment, tax).value);
      } else {
        var matched := Min(quantity, s.quantity - s.matched);
        var first := Reassess(s, matched, adjustment, tax).value;
        RematchOldestFirst(rest, date, quantity - matched, first.adjustment, tax);
        SellMatched(s, rest, date, quantity, adjustment, tax, matched, first);
      }
    }
  }

  lemma {:induction false} SellMatched(s: DayTradeSell, rest: seq<DayTradeSell>, date: int, quantity: nat, adjustment: int, tax: Assessment,
                                       matched: nat, first: Reassessed)
    requires quantity > 0 && s.date == date && s.matched < s.quantity && matched == Min(quantity, s.quantity - s.matched)
    requires Reassess(s, matched, adjustment, tax) == Ok(first)
    requires var later := RematchSells(rest, date, quantity - matched, first.adjustment, tax);
      later.Ok? && Rematched(rest, date, quantity - matched, tax, later.value, later.value.adjustment - first.adjustment)
    ensures var r := RematchSells([s] + rest, date, quantity, adjustment, tax);
      r.Ok? && Rematched([s] + rest, date, quantity, tax, r.value, r.value.adjustment - adjustment)
  {
    var later := RematchSells(rest, date, quantity - matched, first.adjustment, tax).value;
    RematchOne(s, rest, date, quantity, adjustment, tax, first);
    SellsJoin(s, rest, first.sell, later, date, quantity - matched, tax, matched, quantity, later.(sells := [first.sell] + later.sells));
  }

  lemma {:induction false} SellsJoin(s: DayTradeSell, rest: seq<DayTradeSell>, t: DayTradeSell, later: Rematch, date: int, left: nat, tax: Assessment,
                                     matched: nat, quantity: nat, r: Rematch)
    requires SellGoesOn(s, t, date, tax) && t.matched == s.matched + matched && left == quantity - matched
    requires left > 0 ==> SellIsFull(s, t, date)
    requires |later.sells| == |rest| && Rematched(rest, date, left, tax, later, AssessedMore(rest, later.sells))
    requires r.sells == [t] + later.sells && r.remaining == later.remaining
    ensures Rematched([s] + rest, date, quantity, tax, r, AssessedMore(rest, later.sells) + t.assessed - s.assessed)
  {
    var sells := [s] + rest;
    assert sells[1..] == rest && r.sells[1..] == later.sells;
    NoneLost(rest, later.sells, date, tax);
    forall i, j | 0 <= i < j < |sells| && r.sells[j].matched > sells[j].matched ensures SellIsFull(sells[i], r.sells[i], date) {
      if i == 0 {
        MatchedPart(rest, later.sells, date, tax, j - 1);
      } else {
        assert SellIsFull(rest[i - 1], later.sells[i - 1], date);
      }
    }
  }

  /** If one is matched more, more is matched. */
  lemma {:induction false} MatchedPart(sells: seq<DayTradeSell>, after: seq<DayTradeSell>, date: int, tax: Assessment, j: nat)
    requires |after| == |sells| && j < |sells| && forall i :: 0 <= i < |sells| ==> SellGoesOn(sells[i], after[i], date, tax)
    ensures MatchedMore(sells, after) >= after[j].matched - sells[j].matched
  {
    if j > 0 {
      MatchedPart(sells[1..], after[1..], date, tax, j - 1);
    } else {
      NoneLost(sells[1..], after[1..], date, tax);
    }
  }

  lemma {:induction false} NoneLost(sells: seq<DayTradeSell>, after: seq<DayTradeSell>, date: int, tax: Assessment)
    requires |after| == |sells| && forall i :: 0 <= i < |sells| ==> SellGoesOn(sells[i], after[i], date, tax)
    ensures MatchedMore(sells, after) >= 0
  {
    if sells != [] {
      NoneLost(sells[1..], after[1..], date, tax);
    }
  }

  // ---------------------------------------------------------------- queued buys

  ghost predicate BuyGoesOn(b: DayTradeBuy, c: DayTradeBuy, date: int) {
    c.date == b.date && c.remaining <= b.remaining && (b.date != date ==> c == b)
  }

  function UsedOf(buys: seq<DayTradeBuy>, after: seq<DayTradeBuy>): int
    requires |buys| == |after|
  {
    if buys == [] then 0 else buys[0].remaining - after[0].remaining + UsedOf(buys[1..], after[1..])
  }

  /** What a sell does to the queued buys: it uses as much of its date as there is, oldest first. */
  ghost predicate Used(buys: seq<DayTradeBuy>, date: int, quantity: nat, c: Consumed) {
    && |c.buys| == |buys| && UsedOf(buys, c.buys) == quantity - c.remaining
    && (forall i :: 0 <= i < |buys| ==> BuyGoesOn(buys[i], c.buys[i], date))
    && (forall i, j :: 0 <= i < j < |buys| && c.buys[j].remaining < buys[j].remaining && buys[i].date == date ==> c.buys[i].remaining == 0)
    && (c.remaining > 0 ==> forall i :: 0 <= i < |buys| && buys[i].date == date ==> c.buys[i].remaining == 0)
  }

  lemma {:induction false} ConsumeOldestFirst(buys: seq<DayTradeBuy>, date: int, quantity: nat)
    ensures Used(buys, date, quantity, ConsumeBuys(buys, date, quantity))
  {
    if buys != [] {
      var b, rest := buys[0], buys[1..];
      var matched := if b.date == date then Min(quantity, b.remaining) else 0;
      ConsumeOldestFirst(rest, date, quantity - matched);
      BuysJoin(b, rest, ConsumeBuys(rest, date, quantity - matched), date, matched, quantity, ConsumeBuys(buys, date, quantity));
    }
  }

  lemma {:induction false} BuysJoin(b: DayTradeBuy, rest: seq<DayTradeBuy>, later: Consumed, date: int, matched: nat, quantity: nat, c: Consumed)
    requires matched == (if b.date == date then Min(quantity, b.remaining) else 0) && Used(rest, date, quantity - matched, later)
    requires c.buys == [b.(remaining := b.remaining - matched)] + later.buys && c.remaining == later.remaining
    ensures Used([b] + rest, date, quantity, c)
  {
    var buys := [b] + rest;
    assert buys[1..] == rest && c.buys[1..] == later.buys;
    NoneReturned(rest, later.buys, date);
    forall i, j | 0 <= i < j < |buys| && c.buys[j].remaining < buys[j].remaining && buys[i].date == date ensures c.buys[i].remaining == 0 {
      if i == 0 {
        UsedPart(rest, later.buys, date, j - 1);
      }
    }
  }

  lemma {:induction false} UsedPart(buys: seq<DayTradeBuy>, after: seq<DayTradeBuy>, date: int, j: nat)
    requires |after| == |buys| && j < |buys| && forall i :: 0 <= i < |buys| ==> BuyGoesOn(buys[i], after[i], date)
    ensures UsedOf(buys, after) >= buys[j].remaining - after[j].remaining
  {
    if j > 0 {
      UsedPart(buys[1..], after[1..], date, j - 1);
    } else {
      NoneReturned(buys[1..], after[1..], date);
    }
  }

  lemma {:induction false} NoneReturned(buys: seq<DayTradeBuy>, after: seq<DayTradeBuy>, date: int)
    requires |after| == |buys| && forall i :: 0 <= i < |buys| ==> BuyGoesOn(buys[i], after[i], date)
    ensures UsedOf(buys, after) >= 0
  {
    if buys != [] {
      NoneReturned(buys[1..], after[1..], date);
    }
  }

  // ----------------------------------------------------------------- main results

  /** A buy on a matched day books what its matches change, and waits with the rest. */
  lemma {:induction false} BuyExactly(date: int, quantity: nat, buys: seq<DayTradeBuy>, sells: seq<DayTradeSell>, tax: Assessment)
    requires BuyTax(date, quantity, buys, sells, tax).Ok?
    ensures var o := BuyTax(date, quantity, buys, sells, tax).value;
      exists left: nat ::
        && Rematched(sells, date, quantity, tax, Rematch(o.sells, left, o.tax), o.tax)
        && o.buys == if left == 0 then buys else buys + [DayTradeBuy(date, left)]
  {
    RematchOldestFirst(sells, date, quantity, 0, tax);
    var r, o := RematchSells(sells, date, quantity, 0, tax).value, BuyTax(date, quantity, buys, sells, tax).value;
    assert Rematched(sells, date, quantity, tax, Rematch(o.sells, r.remaining, o.tax), o.tax);
  }

  /** A sell on a matched day is taxed on what the queued buys cover, and waits while it is not covered. */
  lemma {:induction false} SellExactly(date: int, price: int, quantity: nat, buys: seq<DayTradeBuy>, sells: seq<DayTradeSell>, tax: Assessment)
    ensures var r := SellTax(date, price, quantity, buys, sells, tax);
      exists after, left: nat ::
        && Used(buys, date, quantity, Consumed(after, left)) && left <= quantity
        && match tax(price, quantity, quantity - left)
           case Err(e) => r == Err(e)
           case Ok(due) =>
             r == Ok(TaxOutcome(due, after, if left == 0 then sells else sells + [DayTradeSell(date, price, quantity, quantity - left, due)]))
  {
    ConsumeOldestFirst(buys, date, quantity);
    ConsumeBuysBalance(buys, date, quantity, date);
    var c := ConsumeBuys(buys, date, quantity);
    assert Used(buys, date, quantity, Consumed(c.buys, c.remaining));
    assert sells + [] == sells;
  }
}
