/** A displayed book side and the checks its constructor makes. */
module Book {
  import opened Wrappers
  import opened MachineIntegers
  import opened MarketTypes

  const BOOK_DEPTH: nat := 5

  datatype BookLevel = BookLevel(price: i128, displayed: Quantity)

  datatype SideKind = Bid | Ask

  /** Always five slots. */
  datatype RawSide = BookSide(kind: SideKind, marketOrders: Option<Quantity>, slots: seq<Option<BookLevel>>)
  type BookSide = s: RawSide | |s.slots| == BOOK_DEPTH witness BookSide(Bid, None, [None, None, None, None, None])

  datatype BookError =
    | TooManyLevels(side: SideKind, count: nat)
    | NonContiguous(side: SideKind, index: nat)
    | PriceOrder(side: SideKind, index: nat)
    | UnitMismatch(side: SideKind, expected: QuantityUnit, actual: QuantityUnit, index: nat)
    | WrongSide(expectedSide: SideKind, actualSide: SideKind)
    | CrossSideUnitMismatch(bid: QuantityUnit, ask: QuantityUnit)

  /** The priced levels: the slots up to the first empty one. */
  function Levels(slots: seq<Option<BookLevel>>): (levels: seq<BookLevel>)
    ensures |levels| <= |slots|
    ensures forall i :: 0 <= i < |levels| ==> slots[i] == Some(levels[i])
    ensures |levels| < |slots| ==> slots[|levels|] == None
  {
    if slots == [] || slots[0] == None then [] else [slots[0].value] + Levels(slots[1..])
  }

  predicate CorrectlyOrdered(kind: SideKind, previous: int, price: int) {
    if kind == Bid then previous > price else previous < price
  }

  /** What a side promises its readers. */
  predicate ValidSide(side: BookSide) {
    var levels := Levels(side.slots);
    && |levels| + (if side.marketOrders.Some? then 1 else 0) <= BOOK_DEPTH
    && (forall i :: |levels| <= i < BOOK_DEPTH ==> side.slots[i] == None)
    && (forall i, j :: 0 <= i < j < |levels| ==> CorrectlyOrdered(side.kind, levels[i].price, levels[j].price))
    && (forall i, j :: 0 <= i < j < |levels| ==> levels[i].displayed.unit == levels[j].displayed.unit)
    && (side.marketOrders.Some? ==> forall i :: 0 <= i < |levels| ==> levels[i].displayed.unit == side.marketOrders.value.unit)
  }

  function Displayed(side: BookSide): nat {
    |Levels(side.slots)| + (if side.marketOrders.Some? then 1 else 0)
  }

  /** The unit that the slots before `index` have fixed, if any. */
  function UnitBefore(side: BookSide, index: nat): Option<QuantityUnit> {
    if side.marketOrders.Some? then Some(side.marketOrders.value.unit)
    else if index == 0 || Levels(side.slots) == [] then None else Some(Levels(side.slots)[0].displayed.unit)
  }

  /** What is wrong with one slot, given the slots before it. */
  function SlotError(side: BookSide, index: nat): Option<BookError>
    requires index < BOOK_DEPTH
  {
    var levels, unit := Levels(side.slots), UnitBefore(side, index);
    if side.slots[index] == None then None
    else if index >= |levels| then Some(NonContiguous(side.kind, index))
    else if unit.Some? && unit.value != levels[index].displayed.unit
    then Some(UnitMismatch(side.kind, unit.value, levels[index].displayed.unit, index))
    else if index > 0 && !CorrectlyOrdered(side.kind, levels[index - 1].price, levels[index].price)
    then Some(PriceOrder(side.kind, index))
    else None
  }

  ghost predicate FirstSlotError(side: BookSide, index: nat, error: BookError) {
    index < BOOK_DEPTH && SlotError(side, index) == Some(error) && forall i :: 0 <= i < index ==> SlotError(side, i) == None
  }

  /** The last level before `index`, if any. */
  function LevelBefore(side: BookSide, index: nat): Option<BookLevel> {
    var levels := Levels(side.slots);
    if index == 0 || levels == [] then None else Some(levels[Min(index, |levels|) - 1])
  }

  /** What is wrong with one slot; a loop that keeps what it has seen knows all it takes. */
  method CheckSlot(side: BookSide, index: nat, emptySeen: bool, unit: Option<QuantityUnit>, previous: Option<BookLevel>)
    returns (r: Option<BookError>)
    requires index < BOOK_DEPTH && emptySeen == (|Levels(side.slots)| < index)
    requires unit == UnitBefore(side, index) && previous == LevelBefore(side, index)
    ensures r == SlotError(side, index)
  {
    if side.slots[index] == None {
      return None;
    }
    if emptySeen {
      return Some(NonContiguous(side.kind, index));
    }
    var level := side.slots[index].value;
    assert level == Levels(side.slots)[index];
    if unit.Some? && unit.value != level.displayed.unit {
      return Some(UnitMismatch(side.kind, unit.value, level.displayed.unit, index));
    }
    if previous.Some? && !CorrectlyOrdered(side.kind, previous.value.price, level.price) {
      return Some(PriceOrder(side.kind, index));
    }
    return None;
  }

  /** The constructor's loop accepts exactly the sides that keep every promise, although it only
      compares neighbours; otherwise it reports too many levels, or what is wrong with the first bad slot. */
  method Validate(side: BookSide) returns (r: Result<(), BookError>)
    ensures r.Ok? <==> ValidSide(side)
    ensures Displayed(side) > BOOK_DEPTH ==> r == Err(TooManyLevels(side.kind, Displayed(side)))
    ensures Displayed(side) <= BOOK_DEPTH && r.Err? ==> exists i :: FirstSlotError(side, i, r.error)
  {
    var displayed := Displayed(side);
    if displayed > BOOK_DEPTH {
      return Err(TooManyLevels(side.kind, displayed));
    }
    ValidExactly(side);
    var emptySeen, previous, unit := false, None, UnitBefore(side, 0);
    var index := 0;
    while index < BOOK_DEPTH
      invariant 0 <= index <= BOOK_DEPTH && emptySeen == (|Levels(side.slots)| < index)
      invariant unit == UnitBefore(side, index) && previous == LevelBefore(side, index)
      invariant forall i :: 0 <= i < index ==> SlotError(side, i) == None
    {
      var bad := CheckSlot(side, index, emptySeen, unit, previous);
      if bad.Some? {
        assert FirstSlotError(side, index, bad.value);
        return Err(bad.value);
      }
      SeenNext(side, index);
      if side.slots[index] == None {
        emptySeen := true;
      } else {
        previous, unit := side.slots[index], Some(side.slots[index].value.displayed.unit);
      }
      index := index + 1;
    }
    return Ok(());
  }

  /** What the loop has seen after a good slot. */
  lemma {:induction false} SeenNext(side: BookSide, index: nat)
    requires index < BOOK_DEPTH && SlotError(side, index) == None
    ensures if side.slots[index] == None then
        |Levels(side.slots)| <= index && UnitBefore(side, index + 1) == UnitBefore(side, index)
        && LevelBefore(side, index + 1) == LevelBefore(side, index)
      else
        |Levels(side.slots)| > index && LevelBefore(side, index + 1) == side.slots[index]
        && UnitBefore(side, index + 1) == Some(side.slots[index].value.displayed.unit)
  {
  }

  /** A side is valid exactly when it is not too deep and nothing is wrong with any slot. */
  lemma {:induction false} ValidExactly(side: BookSide)
    ensures ValidSide(side) <==> Displayed(side) <= BOOK_DEPTH && forall i :: 0 <= i < BOOK_DEPTH ==> SlotError(side, i) == None
  {
    var levels := Levels(side.slots);
    if Displayed(side) <= BOOK_DEPTH && forall i :: 0 <= i < BOOK_DEPTH ==> SlotError(side, i) == None {
      forall i | |levels| <= i < BOOK_DEPTH ensures side.slots[i] == None {
        assert SlotError(side, i) == None;
      }
      forall j | 0 <= j < |levels|
        ensures UnitBefore(side, j).Some? ==> UnitBefore(side, j).value == levels[j].displayed.unit
        ensures j > 0 ==> CorrectlyOrdered(side.kind, levels[j - 1].price, levels[j].price)
      {
        assert SlotError(side, j) == None;
      }
      forall i, j | 0 <= i < j < |levels| ensures CorrectlyOrdered(side.kind, levels[i].price, levels[j].price) {
        InOrder(side.kind, levels, i, j);
      }
    }
  }

  /** Levels in order with their neighbours are in order with each other. */
  lemma {:induction false} InOrder(kind: SideKind, levels: seq<BookLevel>, i: nat, j: nat)
    requires i < j < |levels| && forall k :: 0 < k < |levels| ==> CorrectlyOrdered(kind, levels[k - 1].price, levels[k].price)
    ensures CorrectlyOrdered(kind, levels[i].price, levels[j].price)
    decreases j
  {
    assert CorrectlyOrdered(kind, levels[j - 1].price, levels[j].price);
    if i < j - 1 {
      InOrder(kind, levels, i, j - 1);
    }
  }

  function SideUnit(side: BookSide): Option<QuantityUnit> {
    if side.marketOrders.Some? then Some(side.marketOrders.value.unit)
    else if Levels(side.slots) != [] then Some(Levels(side.slots)[0].displayed.unit)
    else None
  }

  datatype Snapshot = Snapshot(bids: BookSide, asks: BookSide)

  function NewSnapshot(bids: BookSide, asks: BookSide): Result<Snapshot, BookError> {
    if bids.kind != Bid then Err(WrongSide(Bid, bids.kind))
    else if asks.kind != Ask then Err(WrongSide(Ask, asks.kind))
    else if SideUnit(bids).Some? && SideUnit(asks).Some? && SideUnit(bids) != SideUnit(asks)
    then Err(CrossSideUnitMismatch(SideUnit(bids).value, SideUnit(asks).value))
    else Ok(Snapshot(bids, asks))
  }

  function BookUnit(book: Snapshot): Option<QuantityUnit> {
    if SideUnit(book.bids).Some? then SideUnit(book.bids) else SideUnit(book.asks)
  }

  /** A snapshot as its constructors make it. */
  predicate ValidBook(book: Snapshot) {
    ValidSide(book.bids) && ValidSide(book.asks) && NewSnapshot(book.bids, book.asks) == Ok(book)
  }

  /** One unit check on the snapshot covers every displayed level of either side. */
  lemma {:induction false} BookUnitIsEveryLevels(book: Snapshot, side: BookSide, i: nat)
    requires ValidBook(book) && (side == book.bids || side == book.asks) && i < |Levels(side.slots)|
    ensures BookUnit(book) == Some(Levels(side.slots)[i].displayed.unit)
  {
    var levels := Levels(side.slots);
    if i > 0 {
      assert levels[0].displayed.unit == levels[i].displayed.unit;
    }
    assert SideUnit(side) == Some(levels[i].displayed.unit);
  }
}
