/** Which sides and books their constructors accept, slot by slot, and what they report of the others. */
module BookMeaning {
  import opened Wrappers
  import opened MachineIntegers
  import opened MarketTypes
  import opened Book

  /** Levels first, bids falling and asks rising, all of one unit; and market orders count as a level of that unit. */
  ghost predicate ProperSide(side: BookSide) {
    && (forall i, j :: 0 <= i < j < 5 && side.slots[j].Some? ==> side.slots[i].Some? && InTurn(side, i, j))
    && (side.marketOrders.Some? ==>
          side.slots[4] == None && forall i :: 0 <= i < 5 && side.slots[i].Some? ==>
            side.slots[i].value.displayed.unit == side.marketOrders.value.unit)
  }

  ghost predicate InTurn(side: BookSide, i: nat, j: nat)
    requires i < 5 && j < 5 && side.slots[i].Some? && side.slots[j].Some?
  {
    var a, b := side.slots[i].value, side.slots[j].value;
    a.displayed.unit == b.displayed.unit && match side.kind
      case Bid => a.price > b.price
      case Ask => a.price < b.price
  }

  /** A side is valid exactly when it is proper. */
  lemma {:induction false} ProperExactly(side: BookSide)
    ensures ValidSide(side) <==> ProperSide(side)
  {
    var levels := Levels(side.slots);
    var n := |levels|;
    assert forall i :: 0 <= i < n ==> side.slots[i] == Some(levels[i]);
    if ValidSide(side) {
      ValidIsProper(side);
    }
    if ProperSide(side) {
      forall i | n <= i < 5 ensures side.slots[i] == None {
        assert side.slots[n] == None;
      }
      assert n == 5 ==> side.slots[4].Some?;
      forall i, j | 0 <= i < j < n
        ensures CorrectlyOrdered(side.kind, levels[i].price, levels[j].price) && levels[i].displayed.unit == levels[j].displayed.unit
      {
        assert InTurn(side, i, j);
      }
    }
  }

  lemma {:induction false} ValidIsProper(side: BookSide)
    requires ValidSide(side)
    ensures ProperSide(side)
  {
    var levels := Levels(side.slots);
    assert forall i :: 0 <= i < |levels| ==> side.slots[i] == Some(levels[i]);
    forall i, j | 0 <= i < j < 5 && side.slots[j].Some? ensures side.slots[i].Some? && InTurn(side, i, j) {
      assert j < |levels|;
      assert CorrectlyOrdered(side.kind, levels[i].price, levels[j].price) && levels[i].displayed.unit == levels[j].displayed.unit;
    }
    forall i | 0 <= i < 5 && side.slots[i].Some? && side.marketOrders.Some?
      ensures side.slots[i].value.displayed.unit == side.marketOrders.value.unit
    {
      assert i < |levels|;
    }
  }

  /** What is wrong with a slot: a level after an empty slot, then a unit that is not that of the market orders or of the best
      level, then a price not beyond the one before it. */
  function SlotProblem(side: BookSide, index: nat): Option<BookError>
    requires index < 5
  {
    if side.slots[index] == None then None
    else if exists j :: 0 <= j < index && side.slots[j] == None then Some(NonContiguous(side.kind, index))
    else
      var level := side.slots[index].value;
      var unit := if side.marketOrders.Some? then side.marketOrders.value.unit
                  else if side.slots[0].Some? then side.slots[0].value.displayed.unit else level.displayed.unit;
      if level.displayed.unit != unit then Some(UnitMismatch(side.kind, unit, level.displayed.unit, index))
      else if index > 0 && side.slots[index - 1].Some?
              && (if side.kind == Bid then level.price >= side.slots[index - 1].value.price else level.price <= side.slots[index - 1].value.price)
      then Some(PriceOrder(side.kind, index))
      else None
  }

  lemma {:induction false} SlotExactly(side: BookSide, index: nat)
    requires index < 5
    ensures SlotError(side, index) == SlotProblem(side, index)
  {
    var levels := Levels(side.slots);
    assert forall i :: 0 <= i < |levels| ==> side.slots[i] == Some(levels[i]);
    if index > |levels| {
      assert side.slots[|levels|] == None;
    }
  }

  // ----------------------------------------------------------------------- books

  /** A unit that something displayed has. */
  ghost predicate SideHas(side: BookSide, unit: QuantityUnit) {
    (side.marketOrders.Some? && side.marketOrders.value.unit == unit)
    || exists i :: 0 <= i < 5 && side.slots[i].Some? && side.slots[i].value.displayed.unit == unit
  }

  ghost predicate BookHas(book: Snapshot, unit: QuantityUnit) {
    SideHas(book.bids, unit) || SideHas(book.asks, unit)
  }

  lemma {:induction false} SideUnitExactly(side: BookSide, unit: QuantityUnit)
    requires ValidSide(side)
    ensures SideUnit(side) == Some(unit) <==> SideHas(side, unit)
  {
    ProperExactly(side);
    var levels := Levels(side.slots);
    assert forall i :: 0 <= i < |levels| ==> side.slots[i] == Some(levels[i]);
    assert |levels| == 0 ==> side.slots[0] == None;
    if SideHas(side, unit) && !(side.marketOrders.Some? && side.marketOrders.value.unit == unit) {
      var i :| 0 <= i < 5 && side.slots[i].Some? && side.slots[i].value.displayed.unit == unit;
      assert i > 0 ==> InTurn(side, 0, i);
    }
  }

  /** Proper sides, each in its place, and one unit for both. */
  ghost predicate ProperBook(book: Snapshot) {
    && ProperSide(book.bids) && ProperSide(book.asks) && book.bids.kind == Bid && book.asks.kind == Ask
    && forall u, v :: SideHas(book.bids, u) && SideHas(book.asks, v) ==> u == v
  }

  /** A book is valid exactly when it is proper. */
  lemma {:induction false} BookExactly(book: Snapshot)
    ensures ValidBook(book) <==> ProperBook(book)
  {
    ProperExactly(book.bids);
    ProperExactly(book.asks);
    if ValidSide(book.bids) && ValidSide(book.asks) {
      forall u ensures SideUnit(book.bids) == Some(u) <==> SideHas(book.bids, u) {
        SideUnitExactly(book.bids, u);
      }
      forall u ensures SideUnit(book.asks) == Some(u) <==> SideHas(book.asks, u) {
        SideUnitExactly(book.asks, u);
      }
    }
  }

  /** And its unit is the one of everything it displays. */
  lemma {:induction false} UnitExactly(book: Snapshot, unit: QuantityUnit)
    requires ValidBook(book)
    ensures BookUnit(book) == Some(unit) <==> BookHas(book, unit)
  {
    SideUnitExactly(book.bids, unit);
    SideUnitExactly(book.asks, unit);
    BookExactly(book);
    if SideUnit(book.bids).Some? {
      SideUnitExactly(book.bids, SideUnit(book.bids).value);
    }
  }

  /** Two sides make a book, or the first thing wrong with them is reported. */
  lemma {:induction false} SnapshotExactly(bids: BookSide, asks: BookSide, b: QuantityUnit, a: QuantityUnit)
    requires ValidSide(bids) && ValidSide(asks)
    ensures var r := NewSnapshot(bids, asks);
      && (bids.kind == Ask ==> r == Err(WrongSide(Bid, Ask)))
      && (bids.kind == Bid && asks.kind == Bid ==> r == Err(WrongSide(Ask, Bid)))
      && (bids.kind == Bid && asks.kind == Ask && SideHas(bids, b) && SideHas(asks, a) ==>
            r == if b == a then Ok(Snapshot(bids, asks)) else Err(CrossSideUnitMismatch(b, a)))
  {
    SideUnitExactly(bids, b);
    SideUnitExactly(asks, a);
  }
}
