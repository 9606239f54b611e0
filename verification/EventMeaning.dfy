/** Which events their constructors accept, field by field. */
module EventMeaning {
  import opened Wrappers
  import opened MachineIntegers
  import opened MarketTypes
  import opened Book
  import opened BookMeaning
  import opened Events
  import opened EventCodec
  import opened FrameCodec

  /** An unknown value that is text is readable. */
  predicate Readable<T>(o: Observation<T>, utf8: Bytes -> bool) {
    match o
    case Unknown(Text(text)) => utf8(text)
    case _ => true
  }

  /** Only the direction of a volatility interruption, or of a round whose purpose is not known, is known. */
  predicate ProperRound(o: AuctionObservation) {
    match (o.direction, o.purpose)
    case (Known(_), Known(purpose)) => purpose == VolatilityInterruption
    case _ => true
  }

  predicate ProperSignal(o: Observation<MarketSignal>, utf8: Bytes -> bool) {
    && Readable(o, utf8)
    && match o
       case Set(AuctionCollecting(round)) => ProperRound(round)
       case Set(AuctionUncross(round)) => ProperRound(round)
       case _ => true
  }

  /** Some part has the unit. */
  ghost predicate QuoteHas(book: Snapshot, trade: Observation<ObservedTrade>, volume: Observation<Volume>, unit: QuantityUnit) {
    BookHas(book, unit) || (trade.Set? && trade.value.quantity.unit == unit) || (volume.Set? && volume.value.unit == unit)
  }

  ghost predicate AuctionHas(a: Auction, unit: QuantityUnit) {
    (a.quantity.Set? && a.quantity.value.unit == unit) || (a.book.Set? && BookHas(a.book.value, unit))
    || (a.volume.Set? && a.volume.value.unit == unit)
  }

  /** At least one trade, and one unit for all of them and for the volume. */
  predicate ProperBatch(trades: seq<ObservedTrade>, volume: Observation<Volume>) {
    && trades != [] && (forall i, j :: 0 <= i < j < |trades| ==> trades[i].quantity.unit == trades[j].quantity.unit)
    && (volume.Set? ==> volume.value.unit == trades[0].quantity.unit)
  }

  ghost predicate ProperPayload(p: Payload, utf8: Bytes -> bool) {
    match p
    case QuoteSnapshot(book, trade, volume, _, signal) =>
      && ProperBook(book) && Readable(trade, utf8) && Readable(volume, utf8) && ProperSignal(signal, utf8)
      && forall u, v :: QuoteHas(book, trade, volume, u) && QuoteHas(book, trade, volume, v) ==> u == v
    case BookSnapshot(book, _, signal) => ProperBook(book) && ProperSignal(signal, utf8)
    case TradeBatch(trades, _, volume, _, signal) => ProperBatch(trades, volume) && Readable(volume, utf8) && ProperSignal(signal, utf8)
    case IndicativeAuction(a) =>
      && ProperRound(a.observation) && Readable(a.price, utf8) && Readable(a.quantity, utf8) && Readable(a.book, utf8) && Readable(a.volume, utf8)
      && (a.book.Set? ==> ProperBook(a.book.value)) && forall u, v :: AuctionHas(a, u) && AuctionHas(a, v) ==> u == v
    case MarketStatus(volume, _, signal) => Readable(volume, utf8) && ProperSignal(signal, utf8)
  }

  /** Readable names that are not empty, a date of the years 0 to 9999, and a proper payload. */
  ghost predicate ProperEvent(e: Event, utf8: Bytes -> bool) {
    && e.instrument.symbol != [] && utf8(e.instrument.symbol) && e.sourceFormat != [] && utf8(e.sourceFormat)
    && -719528 <= e.tradingDate <= 2932896 && ProperPayload(e.payload, utf8)
  }

  lemma {:induction false} QuoteExactly(book: Snapshot, trade: Observation<ObservedTrade>, volume: Observation<Volume>)
    requires ValidBook(book)
    ensures QuoteUnitsAgree(book, trade, volume)
       <==> forall u, v :: QuoteHas(book, trade, volume, u) && QuoteHas(book, trade, volume, v) ==> u == v
  {
    forall u ensures BookUnit(book) == Some(u) <==> BookHas(book, u) {
      UnitExactly(book, u);
    }
    if !QuoteUnitsAgree(book, trade, volume) {
      assert BookUnit(book).Some? ==> QuoteHas(book, trade, volume, BookUnit(book).value);
      assert trade.Set? ==> QuoteHas(book, trade, volume, trade.value.quantity.unit);
      assert volume.Set? ==> QuoteHas(book, trade, volume, volume.value.unit);
    }
  }

  lemma {:induction false} AuctionExactly(a: Auction)
    requires a.book.Set? ==> ValidBook(a.book.value)
    ensures AuctionUnitsAgree(a.quantity, a.book, a.volume) <==> forall u, v :: AuctionHas(a, u) && AuctionHas(a, v) ==> u == v
  {
    if a.book.Set? {
      forall u ensures BookUnit(a.book.value) == Some(u) <==> BookHas(a.book.value, u) {
        UnitExactly(a.book.value, u);
      }
    }
    if !AuctionUnitsAgree(a.quantity, a.book, a.volume) {
      assert a.quantity.Set? ==> AuctionHas(a, a.quantity.value.unit);
      assert a.book.Set? && BookUnit(a.book.value).Some? ==> AuctionHas(a, BookUnit(a.book.value).value);
      assert a.volume.Set? ==> AuctionHas(a, a.volume.value.unit);
    }
  }

  lemma {:induction false} BatchExactly(trades: seq<ObservedTrade>, volume: Observation<Volume>)
    ensures BatchUnitsAgree(trades, volume) <==> ProperBatch(trades, volume)
  {
  }

  lemma {:induction false} PayloadExactly(p: Payload, utf8: Bytes -> bool)
    ensures ValidPayload(p, utf8) <==> ProperPayload(p, utf8)
  {
    match p
    case QuoteSnapshot(book, trade, volume, _, _) =>
      BookExactly(book);
      if ValidBook(book) {
        QuoteExactly(book, trade, volume);
      }
    case BookSnapshot(book, _, _) => BookExactly(book);
    case TradeBatch(trades, _, volume, _, _) => BatchExactly(trades, volume);
    case IndicativeAuction(a) =>
      if a.book.Set? {
        BookExactly(a.book.value);
      }
      if a.book.Set? ==> ValidBook(a.book.value) {
        AuctionExactly(a);
      }
    case MarketStatus(_, _, _) =>
  }

  /** An event is valid exactly when it is proper. */
  lemma {:induction false} EventExactly(e: Event, utf8: Bytes -> bool)
    ensures ValidEvent(e, utf8) <==> ProperEvent(e, utf8)
  {
    PayloadExactly(e.payload, utf8);
  }
}
