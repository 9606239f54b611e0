/** Market events, and the checks their constructors make. */
module Events {
  import opened Wrappers
  import opened MachineIntegers
  import opened MarketTypes
  import opened Book

  datatype UnknownValue = Unsigned(u: u64) | Signed(i: i64) | DecimalAtoms(atoms: i128) | Text(text: Bytes) | Raw(bytes: Bytes)

  datatype Observation<+T> = NoObservation | Set(value: T) | Clear | Unknown(raw: UnknownValue)

  datatype Volume = Volume(value: u64, unit: QuantityUnit)

  datatype TradeKind = Regular | Intermediate

  datatype ObservedTrade = ObservedTrade(price: i128, quantity: Quantity, kind: TradeKind)

  datatype BatchOrdering = Unspecified | SourceSequencePreserved

  datatype AuctionPurpose = Opening | Closing | Periodic | VolatilityInterruption

  datatype Direction = Down | Up

  /** What a record says about one field of an auction round. */
  datatype Evidence<+T> = NotObserved | Known(value: T) | NotKnown

  datatype AuctionObservation = AuctionObservation(purpose: Evidence<AuctionPurpose>, delayed: Evidence<bool>, disposal: Evidence<bool>,
                                                   direction: Evidence<Direction>)

  /** Only a volatility interruption, or a round whose purpose is not known, has a known direction. */
  predicate ValidObservation(o: AuctionObservation) {
    !(o.direction.Known? && o.purpose.Known? && o.purpose.value != VolatilityInterruption)
  }

  datatype MarketSignal = Continuous | AuctionCollecting(observation: AuctionObservation) | AuctionUncross(observation: AuctionObservation)
                        | Closed

  datatype Annotations = NoAnnotations | TwseQuote(status: byte, limit: byte) | TpexQuote(status: byte, limit: byte)

  datatype Auction = Auction(observation: AuctionObservation, price: Observation<i128>, quantity: Observation<Quantity>,
                             book: Observation<Snapshot>, volume: Observation<Volume>, annotations: Annotations)

  datatype Payload =
    | QuoteSnapshot(book: Snapshot, trade: Observation<ObservedTrade>, volume: Observation<Volume>, annotations: Annotations,
                    signal: Observation<MarketSignal>)
    | BookSnapshot(book: Snapshot, annotations: Annotations, signal: Observation<MarketSignal>)
    | TradeBatch(trades: seq<ObservedTrade>, order: BatchOrdering, volume: Observation<Volume>, annotations: Annotations,
                 signal: Observation<MarketSignal>)
    | IndicativeAuction(auction: Auction)
    | MarketStatus(volume: Observation<Volume>, annotations: Annotations, signal: Observation<MarketSignal>)

  datatype Event = Event(instrument: InstrumentId, tradingDate: i32, sourceFormat: Bytes, matchTime: i64, sourceSequence: Option<u64>,
                         payload: Payload)

  // --------------------------------------------------------------- unit checks

  /** The unit agreed on so far, and one more. */
  function Agree(expected: Result<Option<QuantityUnit>, ()>, actual: Option<QuantityUnit>): Result<Option<QuantityUnit>, ()> {
    match expected
    case Err(e) => Err(e)
    case Ok(unit) =>
      if actual == None then expected
      else if unit == None then Ok(actual)
      else if unit == actual then expected else Err(())
  }

  function SetUnit<T>(o: Observation<T>, unit: T -> Option<QuantityUnit>): Option<QuantityUnit> {
    if o.Set? then unit(o.value) else None
  }

  predicate QuoteUnitsAgree(book: Snapshot, trade: Observation<ObservedTrade>, volume: Observation<Volume>) {
    Agree(Agree(Ok(BookUnit(book)), SetUnit(trade, (t: ObservedTrade) => Some(t.quantity.unit))),
          SetUnit(volume, (v: Volume) => Some(v.unit))).Ok?
  }

  predicate AuctionUnitsAgree(quantity: Observation<Quantity>, book: Observation<Snapshot>, volume: Observation<Volume>) {
    Agree(Agree(Agree(Ok(None), SetUnit(quantity, (q: Quantity) => Some(q.unit))), SetUnit(book, (b: Snapshot) => BookUnit(b))),
          SetUnit(volume, (v: Volume) => Some(v.unit))).Ok?
  }

  predicate BatchUnitsAgree(trades: seq<ObservedTrade>, volume: Observation<Volume>) {
    && trades != []
    && (forall i :: 0 <= i < |trades| ==> trades[i].quantity.unit == trades[0].quantity.unit)
    && (volume.Set? ==> volume.value.unit == trades[0].quantity.unit)
  }
}
