/** The bytes of an event frame, one field after the other. */
module FrameLayout {
  import opened Wrappers
  import opened MachineIntegers
  import opened MarketTypes
  import opened Book
  import opened Events
  import opened BigEndian
  import opened FieldCodec
  import opened EventCodec
  import opened FrameCodec
  import InstantText
  import InstrumentOrder

  // ------------------------------------------------------------------ integers

  /** The most significant byte comes first. */
  function Big(n: nat, width: nat): Bytes {
    if width == 0 then [] else Big(n / 256, width - 1) + [n % 256]
  }

  /** Two's complement in four, eight and sixteen bytes. */
  function Four(x: int): Bytes {
    Big(x % 0x1_0000_0000, 4)
  }

  function Eight(x: int): Bytes {
    Big(x % 0x1_0000_0000_0000_0000, 8)
  }

  function Sixteen(x: int): Bytes {
    Big(x % 0x1_0000_0000_0000_0000_0000_0000_0000_0000, 16)
  }

  function CountBytes(x: u64): Bytes {
    Eight(x)
  }

  function PriceBytes(x: i128): Bytes {
    Sixteen(x)
  }

  lemma {:induction false} Nest(a: Bytes, b: Bytes, c: Bytes)
    ensures a + (b + c) == a + b + c
  {
  }

  lemma {:induction false} PutsBig(n: nat, width: nat, rest: Bytes)
    requires n < Pow256(width)
    ensures PutNat(n, width, rest) == Big(n, width) + rest
    decreases width
  {
    if width > 0 {
      PutsBig(n / 256, width - 1, [n % 256] + rest);
      Nest(Big(n / 256, width - 1), [n % 256], rest);
    }
  }

  lemma {:induction false} PutsCount(u: u64, rest: Bytes)
    ensures PutU64(u, rest) == Eight(u) + rest
  {
    Widths();
    PutsBig(u, 8, rest);
  }

  lemma {:induction false} PutsTime(i: i64, rest: Bytes)
    ensures PutI64(i, rest) == Eight(i) + rest
  {
    Widths();
    var n := BigEndian.Unsigned(i, 8);
    assert n == i % 0x1_0000_0000_0000_0000;
    PutsBig(n, 8, rest);
  }

  lemma {:induction false} PutsSixteen(l: i128, rest: Bytes)
    ensures PutI128(l, rest) == Sixteen(l) + rest
  {
    Widths();
    PutsBig(BigEndian.Unsigned(l, 16), 16, rest);
    assert BigEndian.Unsigned(l, 16) == l % 0x1_0000_0000_0000_0000_0000_0000_0000_0000;
  }

  lemma {:induction false} PutsFour(s: i32, n: nat, rest: Bytes)
    requires n <= U32_MAX
    ensures PutI32(s, rest) == Four(s) + rest && PutU32(n, rest) == Four(n) + rest
  {
    Widths();
    PutsBig(BigEndian.Unsigned(s, 4), 4, rest);
    assert BigEndian.Unsigned(s, 4) == s % 0x1_0000_0000;
    PutsBig(n, 4, rest);
  }

  // -------------------------------------------------------------- small fields

  /** A length in four bytes, then that many bytes. */
  function Framed(value: Bytes): Bytes {
    Four(|value|) + value
  }

  function UnitByte(unit: QuantityUnit): byte {
    match unit
    case SourceUnit => 0
    case Share => 1
    case TradingUnit => 2
    case Contract => 3
  }

  /** A quantity is its unit, then its value. */
  function Amount(value: u64, unit: QuantityUnit): Bytes {
    [UnitByte(unit)] + Eight(value)
  }

  function Maybe<T>(o: Option<T>, bytes: T -> Bytes): Bytes {
    match o
    case None => [0]
    case Some(x) => [1] + bytes(x)
  }

  function UnknownBytes(u: UnknownValue): Bytes {
    match u
    case Unsigned(x) => [1] + Eight(x)
    case Signed(x) => [2] + Eight(x)
    case DecimalAtoms(x) => [3] + Sixteen(x)
    case Text(x) => [4] + Framed(x)
    case Raw(x) => [5] + Framed(x)
  }

  /** Not observed, set, cleared or unknown. */
  function Observed<T>(o: Observation<T>, bytes: T -> Bytes): Bytes {
    match o
    case NoObservation => [0]
    case Set(x) => [1] + bytes(x)
    case Clear => [2]
    case Unknown(raw) => [3] + UnknownBytes(raw)
  }

  lemma {:induction false} PutsFramed(value: Bytes, rest: Bytes)
    requires |value| <= U32_MAX
    ensures PutBytes(value, rest) == Framed(value) + rest
  {
    PutsFour(0, |value|, value + rest);
    Nest(Four(|value|), value, rest);
  }

  lemma {:induction false} PutsAmount(value: u64, unit: QuantityUnit, rest: Bytes)
    ensures PutVolume(Volume(value, unit), rest) == Amount(value, unit) + rest
  {
    PutsCount(value, rest);
    Nest([UnitByte(unit)], Eight(value), rest);
  }

  lemma {:induction false} PutsMaybe<T>(o: Option<T>, put: (T, Bytes) -> Bytes, bytes: T -> Bytes, rest: Bytes)
    requires o.Some? ==> put(o.value, rest) == bytes(o.value) + rest
    ensures PutOptional(o, put, rest) == Maybe(o, bytes) + rest
  {
    if o.Some? {
      Nest([1], bytes(o.value), rest);
    }
  }

  lemma {:induction false} PutsUnknown(u: UnknownValue, rest: Bytes)
    requires UnknownFits(u)
    ensures PutUnknown(u, rest) == UnknownBytes(u) + rest
  {
    match u
    case Unsigned(x) => PutsCount(x, rest); Nest([1], Eight(x), rest);
    case Signed(x) => PutsTime(x, rest); Nest([2], Eight(x), rest);
    case DecimalAtoms(x) => PutsSixteen(x, rest); Nest([3], Sixteen(x), rest);
    case Text(x) => PutsFramed(x, rest); Nest([4], Framed(x), rest);
    case Raw(x) => PutsFramed(x, rest); Nest([5], Framed(x), rest);
  }

  lemma {:induction false} PutsObserved<T>(o: Observation<T>, put: (T, Bytes) -> Bytes, bytes: T -> Bytes, rest: Bytes)
    requires Fits(o) && (o.Set? ==> put(o.value, rest) == bytes(o.value) + rest)
    ensures PutObservation(o, put, rest) == Observed(o, bytes) + rest
  {
    match o
    case NoObservation =>
    case Set(x) => Nest([1], bytes(x), rest);
    case Clear =>
    case Unknown(raw) => PutsUnknown(raw, rest); Nest([3], UnknownBytes(raw), rest);
  }

  // --------------------------------------------------------------------- books

  /** A level is its price, then its quantity. */
  function LevelBytes(level: BookLevel): Bytes {
    Sixteen(level.price) + Amount(level.displayed.value, level.displayed.unit)
  }

  function SlotsBytes(slots: seq<Option<BookLevel>>): Bytes {
    if slots == [] then [] else Maybe(slots[0], LevelBytes) + SlotsBytes(slots[1..])
  }

  function QuantityBytes(q: Quantity): Bytes {
    Amount(q.value, q.unit)
  }

  /** A side is its market orders, then its five slots from the best price on. */
  function SideBytes(side: BookSide): Bytes {
    Maybe(side.marketOrders, QuantityBytes) + SlotsBytes(side.slots)
  }

  /** The bids, then the asks. */
  function BookBytes(book: Snapshot): Bytes {
    SideBytes(book.bids) + SideBytes(book.asks)
  }

  lemma {:induction false} PutsLevel(level: BookLevel, rest: Bytes)
    ensures PutLevel(level, rest) == LevelBytes(level) + rest
  {
    PutsAmount(level.displayed.value, level.displayed.unit, rest);
    PutsSixteen(level.price, PutQuantity(level.displayed, rest));
    Nest(Sixteen(level.price), QuantityBytes(level.displayed), rest);
  }

  lemma {:induction false} PutsSlots(slots: seq<Option<BookLevel>>, rest: Bytes)
    ensures PutSlots(slots, rest) == SlotsBytes(slots) + rest
  {
    if slots != [] {
      PutsSlots(slots[1..], rest);
      var others := PutSlots(slots[1..], rest);
      if slots[0].Some? {
        PutsLevel(slots[0].value, others);
      }
      PutsMaybe(slots[0], PutLevel, LevelBytes, others);
      Nest(Maybe(slots[0], LevelBytes), SlotsBytes(slots[1..]), rest);
    }
  }

  lemma {:induction false} PutsSide(side: BookSide, rest: Bytes)
    ensures PutSide(side, rest) == SideBytes(side) + rest
  {
    PutsSlots(side.slots, rest);
    var slots := PutSlots(side.slots, rest);
    if side.marketOrders.Some? {
      PutsAmount(side.marketOrders.value.value, side.marketOrders.value.unit, slots);
    }
    PutsMaybe(side.marketOrders, PutQuantity, QuantityBytes, slots);
    Nest(Maybe(side.marketOrders, QuantityBytes), SlotsBytes(side.slots), rest);
  }

  lemma {:induction false} PutsBook(book: Snapshot, rest: Bytes)
    ensures PutBook(book, rest) == BookBytes(book) + rest
  {
    PutsSide(book.asks, rest);
    PutsSide(book.bids, PutSide(book.asks, rest));
    Nest(SideBytes(book.bids), SideBytes(book.asks), rest);
  }

  // ------------------------------------------------------ signals, annotations

  function EvidenceBytes<T>(e: Evidence<T>, byteOf: T -> byte): Bytes {
    match e
    case NotObserved => [0]
    case Known(x) => [1, byteOf(x)]
    case NotKnown => [2]
  }

  function PurposeByte(p: AuctionPurpose): byte {
    match p
    case Opening => 1
    case Closing => 2
    case Periodic => 3
    case VolatilityInterruption => 4
  }

  function FlagByte(b: bool): byte {
    match b
    case false => 0
    case true => 1
  }

  function DirectionByte(d: Direction): byte {
    match d
    case Down => 1
    case Up => 2
  }

  /** Purpose, delay, disposal and direction. */
  function RoundBytes(o: AuctionObservation): Bytes {
    EvidenceBytes(o.purpose, PurposeByte) + EvidenceBytes(o.delayed, FlagByte) + EvidenceBytes(o.disposal, FlagByte)
    + EvidenceBytes(o.direction, DirectionByte)
  }

  function SignalBytes(signal: MarketSignal): Bytes {
    match signal
    case Continuous => [1]
    case AuctionCollecting(o) => [2] + RoundBytes(o)
    case AuctionUncross(o) => [3] + RoundBytes(o)
    case Closed => [4]
  }

  function AnnotationBytes(a: Annotations): Bytes {
    match a
    case NoAnnotations => [0]
    case TwseQuote(status, limit) => [1, status, limit]
    case TpexQuote(status, limit) => [2, status, limit]
  }

  lemma {:induction false} PutsEvidence<T>(e: Evidence<T>, tagOf: T -> byte, byteOf: T -> byte, rest: Bytes)
    requires e.Known? ==> tagOf(e.value) == byteOf(e.value)
    ensures PutEvidence(e, tagOf, rest) == EvidenceBytes(e, byteOf) + rest
  {
  }

  lemma {:induction false} PutsRound(o: AuctionObservation, rest: Bytes)
    ensures PutRound(o, rest) == RoundBytes(o) + rest
  {
    var direction := PutEvidence(o.direction, DirectionTag, rest);
    var disposal := PutEvidence(o.disposal, BoolTag, direction);
    var delayed := PutEvidence(o.delayed, BoolTag, disposal);
    PutsEvidence(o.direction, DirectionTag, DirectionByte, rest);
    PutsEvidence(o.disposal, BoolTag, FlagByte, direction);
    PutsEvidence(o.delayed, BoolTag, FlagByte, disposal);
    PutsEvidence(o.purpose, PurposeTag, PurposeByte, delayed);
    var a, b, c, d := EvidenceBytes(o.purpose, PurposeByte), EvidenceBytes(o.delayed, FlagByte), EvidenceBytes(o.disposal, FlagByte),
                      EvidenceBytes(o.direction, DirectionByte);
    Nest(a, b, c + (d + rest));
    Nest(a + b, c, d + rest);
    Nest(a + b + c, d, rest);
  }

  lemma {:induction false} PutsSignal(signal: MarketSignal, rest: Bytes)
    ensures PutSignal(signal, rest) == SignalBytes(signal) + rest
  {
    if signal.AuctionCollecting? || signal.AuctionUncross? {
      PutsRound(signal.observation, rest);
      Nest([if signal.AuctionCollecting? then 2 else 3], RoundBytes(signal.observation), rest);
    }
  }

  lemma {:induction false} PutsAnnotations(a: Annotations, rest: Bytes)
    ensures PutAnnotations(a, rest) == AnnotationBytes(a) + rest
  {
  }

  // ------------------------------------------------------------------ payloads

  function TradeBytes(t: ObservedTrade): Bytes {
    Sixteen(t.price) + QuantityBytes(t.quantity) + [match t.kind case Regular => 0 case Intermediate => 1]
  }

  function TradesBytes(trades: seq<ObservedTrade>): Bytes {
    if trades == [] then [] else TradeBytes(trades[0]) + TradesBytes(trades[1..])
  }

  function VolumeBytes(v: Volume): Bytes {
    Amount(v.value, v.unit)
  }

  /** Cumulative volume, annotations and market signal. */
  function EndBytes(volume: Observation<Volume>, annotations: Annotations, signal: Observation<MarketSignal>): Bytes {
    Observed(volume, VolumeBytes) + (AnnotationBytes(annotations) + Observed(signal, SignalBytes))
  }

  /** A tag that says which payload, then its fields. */
  function PayloadBytes(p: Payload): Bytes {
    match p
    case QuoteSnapshot(book, trade, volume, annotations, signal) =>
      [10] + (BookBytes(book) + (Observed(trade, TradeBytes) + EndBytes(volume, annotations, signal)))
    case BookSnapshot(book, annotations, signal) =>
      [20] + (BookBytes(book) + (AnnotationBytes(annotations) + Observed(signal, SignalBytes)))
    case TradeBatch(trades, order, volume, annotations, signal) =>
      [30] + (Four(|trades|) + (TradesBytes(trades)
      + ([match order case Unspecified => 0 case SourceSequencePreserved => 1] + EndBytes(volume, annotations, signal))))
    case IndicativeAuction(a) =>
      [40] + (RoundBytes(a.observation) + (Observed(a.price, PriceBytes) + (Observed(a.quantity, QuantityBytes)
      + (Observed(a.book, BookBytes) + (Observed(a.volume, VolumeBytes) + AnnotationBytes(a.annotations))))))
    case MarketStatus(volume, annotations, signal) => [50] + EndBytes(volume, annotations, signal)
  }

  lemma {:induction false} PutsTrade(t: ObservedTrade, rest: Bytes)
    ensures PutTrade(t, rest) == TradeBytes(t) + rest
  {
    var kind := PutKind(t.kind, rest);
    PutsAmount(t.quantity.value, t.quantity.unit, kind);
    PutsSixteen(t.price, PutQuantity(t.quantity, kind));
    var tag: Bytes := [match t.kind case Regular => 0 case Intermediate => 1];
    assert kind == tag + rest;
    Nest(Sixteen(t.price), QuantityBytes(t.quantity), tag + rest);
    Nest(Sixteen(t.price) + QuantityBytes(t.quantity), tag, rest);
  }

  lemma {:induction false} PutsTrades(trades: seq<ObservedTrade>, rest: Bytes)
    ensures PutTrades(trades, rest) == TradesBytes(trades) + rest
  {
    if trades != [] {
      PutsTrades(trades[1..], rest);
      PutsTrade(trades[0], PutTrades(trades[1..], rest));
      Nest(TradeBytes(trades[0]), TradesBytes(trades[1..]), rest);
    }
  }

  lemma {:induction false} PutsVolume(o: Observation<Volume>, rest: Bytes)
    requires Fits(o)
    ensures PutObservation(o, PutVolume, rest) == Observed(o, VolumeBytes) + rest
  {
    if o.Set? {
      PutsAmount(o.value.value, o.value.unit, rest);
    }
    PutsObserved(o, PutVolume, VolumeBytes, rest);
  }

  lemma {:induction false} PutsSignals(o: Observation<MarketSignal>)
    requires Fits(o)
    ensures PutObservation(o, PutSignal, []) == Observed(o, SignalBytes)
  {
    if o.Set? {
      PutsSignal(o.value, []);
    }
    PutsObserved(o, PutSignal, SignalBytes, []);
  }

  lemma {:induction false} PutsEnd(t: Tail)
    requires TailFits(t)
    ensures PutTail(t, []) == EndBytes(t.volume, t.annotations, t.signal)
  {
    PutsSignals(t.signal);
    PutsAnnotations(t.annotations, PutObservation(t.signal, PutSignal, []));
    PutsVolume(t.volume, PutAnnotations(t.annotations, PutObservation(t.signal, PutSignal, [])));
  }

  lemma {:induction false} PutsAuctionEnd(a: Auction) returns (bytes: Bytes)
    requires PayloadFits(IndicativeAuction(a))
    ensures bytes == PutObservation(a.book, PutBook, PutObservation(a.volume, PutVolume, PutAnnotations(a.annotations, [])))
                  == Observed(a.book, BookBytes) + (Observed(a.volume, VolumeBytes) + AnnotationBytes(a.annotations))
  {
    var annotations := PutAnnotations(a.annotations, []);
    PutsAnnotations(a.annotations, []);
    assert annotations == AnnotationBytes(a.annotations);
    var volume := PutObservation(a.volume, PutVolume, annotations);
    PutsVolume(a.volume, annotations);
    bytes := PutObservation(a.book, PutBook, volume);
    if a.book.Set? {
      PutsBook(a.book.value, volume);
    }
    PutsObserved(a.book, PutBook, BookBytes, volume);
  }

  lemma {:induction false} PutsAuction(a: Auction)
    requires PayloadFits(IndicativeAuction(a))
    ensures [40] + PutAuction(a, []) == PayloadBytes(IndicativeAuction(a))
  {
    var end := PutsAuctionEnd(a);
    var quantity := PutObservation(a.quantity, PutQuantity, end);
    if a.quantity.Set? {
      PutsAmount(a.quantity.value.value, a.quantity.value.unit, end);
    }
    PutsObserved(a.quantity, PutQuantity, QuantityBytes, end);
    var price := PutObservation(a.price, PutI128, quantity);
    if a.price.Set? {
      PutsSixteen(a.price.value, quantity);
    }
    PutsObserved(a.price, PutI128, PriceBytes, quantity);
    PutsRound(a.observation, price);
  }

  lemma {:induction false} PutsQuote(p: Payload)
    requires p.QuoteSnapshot? && PayloadFits(p)
    ensures [10] + PutQuote(p, []) == PayloadBytes(p)
  {
    var t := Tail(p.volume, p.annotations, p.signal);
    PutsEnd(t);
    if p.trade.Set? {
      PutsTrade(p.trade.value, PutTail(t, []));
    }
    PutsObserved(p.trade, PutTrade, TradeBytes, PutTail(t, []));
    PutsBook(p.book, PutObservation(p.trade, PutTrade, PutTail(t, [])));
  }

  lemma {:induction false} PutsBatch(p: Payload)
    requires p.TradeBatch? && PayloadFits(p)
    ensures [30] + PutBatch(p, []) == PayloadBytes(p)
  {
    PutsEnd(Tail(p.volume, p.annotations, p.signal));
    PutsTrades(p.trades, PutBatchEnd(p, []));
    PutsFour(0, |p.trades|, PutBatchBody(p, []));
  }

  lemma {:induction false} PutsPayload(p: Payload)
    requires PayloadFits(p)
    ensures PutPayload(p, []) == PayloadBytes(p)
  {
    match p
    case QuoteSnapshot(_, _, _, _, _) => PutsQuote(p);
    case BookSnapshot(book, annotations, signal) =>
      PutsSignals(signal);
      PutsAnnotations(annotations, PutObservation(signal, PutSignal, []));
      PutsBook(book, PutAnnotations(annotations, PutObservation(signal, PutSignal, [])));
    case TradeBatch(_, _, _, _, _) => PutsBatch(p);
    case IndicativeAuction(a) => PutsAuction(a);
    case MarketStatus(volume, annotations, signal) => PutsEnd(Tail(volume, annotations, signal));
  }

  // -------------------------------------------------------------------- frames

  /** The magic, two versions, and where, when and from where; then the payload. */
  function EventBytes(e: Event): Bytes {
    [79, 83, 77, 69, 0, 9, 0, 9] + ([InstrumentOrder.MarketPlace(e.instrument.market)] + (Framed(e.instrument.symbol) + (Four(e.tradingDate)
    + (Framed(e.sourceFormat) + (Eight(e.matchTime) + (Maybe(e.sourceSequence, CountBytes) + PayloadBytes(e.payload)))))))
  }

  lemma {:induction false} PutsPlace(p: Place, rest: Bytes)
    requires |p.symbol| <= U32_MAX
    ensures PutPlace(p, rest) == [InstrumentOrder.MarketPlace(p.market)] + (Framed(p.symbol) + (Four(p.tradingDate) + rest))
  {
    PutsFour(p.tradingDate, 0, rest);
    PutsFramed(p.symbol, PutI32(p.tradingDate, rest));
  }

  lemma {:induction false} PutsOrigin(o: Origin, rest: Bytes)
    requires |o.sourceFormat| <= U32_MAX
    ensures PutOrigin(o, rest) == Framed(o.sourceFormat) + (Eight(o.matchTime) + (Maybe(o.sourceSequence, CountBytes) + rest))
  {
    if o.sourceSequence.Some? {
      PutsCount(o.sourceSequence.value, rest);
    }
    PutsMaybe(o.sourceSequence, PutU64, CountBytes, rest);
    PutsTime(o.matchTime, PutOptional(o.sourceSequence, PutU64, rest));
    PutsFramed(o.sourceFormat, PutI64(o.matchTime, PutOptional(o.sourceSequence, PutU64, rest)));
  }

  lemma {:induction false} PutsHeader(rest: Bytes)
    ensures PutHeader(rest) == [79, 83, 77, 69, 0, 9, 0, 9] + rest
  {
    Widths();
    assert PutNat(9, 2, rest) == [0, 9] + rest by {
      assert PutNat(9, 2, rest) == PutNat(0, 1, [9] + rest) == PutNat(0, 0, [0] + ([9] + rest));
    }
    var schema := [0, 9] + rest;
    assert PutNat(9, 2, schema) == [0, 9] + schema by {
      assert PutNat(9, 2, schema) == PutNat(0, 1, [9] + schema) == PutNat(0, 0, [0] + ([9] + schema));
    }
  }

  /** What an event is written as, byte by byte: whenever its time can be written and its lengths fit four bytes. */
  lemma {:induction false} EncodesExactly(e: Event)
    ensures Encode(e) == if !InstantText.Representable(e.matchTime) then Err(InvalidMatchTime)
                         else if !EventFits(e) then Err(LengthOverflow) else Ok(EventBytes(e))
  {
    if EventFits(e) {
      PutsPayload(e.payload);
      PutsOrigin(OriginOf(e), PutPayload(e.payload, []));
      PutsPlace(PlaceOf(e), PutOrigin(OriginOf(e), PutPayload(e.payload, [])));
      PutsHeader(PutPlace(PlaceOf(e), PutOrigin(OriginOf(e), PutPayload(e.payload, []))));
    }
  }

  /** Bytes are read as an event exactly when they are its layout; in particular the tag says which payload follows. */
  lemma {:induction false} DecodesExactly(bytes: Bytes, e: Event, utf8: Bytes -> bool)
    ensures Decode(bytes, utf8) == Ok(e)
       <==> ValidEvent(e, utf8) && InstantText.Representable(e.matchTime) && EventFits(e) && bytes == EventBytes(e)
  {
    EncodesExactly(e);
    if Decode(bytes, utf8) == Ok(e) {
      EncodeInvertsDecode(bytes, utf8);
    }
    if ValidEvent(e, utf8) && Encode(e).Ok? {
      DecodeInvertsEncode(e, utf8);
    }
  }
}
