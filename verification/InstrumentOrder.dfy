/** The order of instruments as map keys: by market, then by symbol. */
module InstrumentOrder {
  import opened MachineIntegers
  import opened MarketTypes
  import opened Comparing
  import opened Sorting

  function CompareInstruments(a: InstrumentId, b: InstrumentId): Order {
    Then(CompareInts(MarketTag(a.market), MarketTag(b.market)), CompareBytes(a.symbol, b.symbol))
  }

  predicate AtOrBefore(a: InstrumentId, b: InstrumentId) {
    CompareInstruments(a, b) != Greater
  }

  lemma {:induction false} InstrumentsFlip(a: InstrumentId, b: InstrumentId)
    ensures CompareInstruments(b, a) == Flip(CompareInstruments(a, b))
    ensures CompareInstruments(a, b) == Equal <==> a == b
  {
    BytesFlip(a.symbol, b.symbol);
  }

  lemma {:induction false} InstrumentsAreOrdered()
    ensures TotalOrder(AtOrBefore)
  {
    forall x, y, z ensures Links(AtOrBefore, x, y, z) {
      InstrumentsFlip(x, y);
      BytesCompose(x.symbol, y.symbol, z.symbol);
    }
  }

  /** The number of a market in stored data and in every order. */
  function MarketPlace(m: MarketId): byte {
    match m
    case Twse => 1
    case Tpex => 2
    case Taifex => 3
  }

  /** Instruments are ordered by their markets, and those of one market by the bytes of their symbols. */
  lemma {:induction false} AtOrBeforeExactly(a: InstrumentId, b: InstrumentId)
    ensures AtOrBefore(a, b)
       <==> MarketPlace(a.market) < MarketPlace(b.market) || (a.market == b.market && (a.symbol == b.symbol || BytesLess(a.symbol, b.symbol)))
  {
    LessIsByteOrder(a.symbol, b.symbol);
    BytesFlip(a.symbol, b.symbol);
  }
}
