/** Whole event frames: header, envelope and payload. */
module FrameCodec {
  import opened Wrappers
  import opened MachineIntegers
  import opened MarketTypes
  import opened Book
  import opened Events
  import opened BigEndian
  import opened FieldCodec
  import opened EventCodec
  import opened CivilDate
  import InstantText

  const MAGIC: Bytes := [79, 83, 77, 69]
  const CANONICAL_VERSION: nat := 9
  const SCHEMA_VERSION: nat := 9
  const TRADE_BYTES: nat := 16 + 9 + 1
  const BATCH_SUFFIX_BYTES: nat := 3

  // ------------------------------------------------------------------- trades

  function PutTrades(trades: seq<ObservedTrade>, rest: Bytes): Bytes {
    if trades == [] then rest else PutTrade(trades[0], PutTrades(trades[1..], rest))
  }

  function GetTrades(bytes: Bytes, count: nat): (r: Decoded<seq<ObservedTrade>>)
    ensures r.Ok? ==> |r.value.value| == count
    decreases count
  {
    if count == 0 then Ok(Parsed([], bytes)) else
    var trade :- GetTrade(bytes);
    var others :- GetTrades(trade.rest, count - 1);
    Ok(Parsed([trade.value] + others.value, others.rest))
  }

  lemma {:induction false} TradesRoundTrip(trades: seq<ObservedTrade>, rest: Bytes)
    ensures GetTrades(PutTrades(trades, rest), |trades|) == Ok(Parsed(trades, rest))
    ensures |PutTrades(trades, rest)| == TRADE_BYTES * |trades| + |rest|
  {
    if trades != [] {
      TradesRoundTrip(trades[1..], rest);
      TradeRoundTrip(trades[0], PutTrades(trades[1..], rest));
      TradeLength(trades[0], PutTrades(trades[1..], rest));
      assert [trades[0]] + trades[1..] == trades;
    }
  }

  lemma {:induction false} TradeLength(t: ObservedTrade, rest: Bytes)
    ensures |PutTrade(t, rest)| == TRADE_BYTES + |rest|
  {
    var kind := PutKind(t.kind, rest);
    Widths();
    PutNatShape(t.quantity.value, 8, kind);
    PutNatShape(BigEndian.Unsigned(t.price, 16), 16, PutQuantity(t.quantity, kind));
  }

  lemma {:induction false} TradesCanonical(bytes: Bytes, count: nat)
    requires GetTrades(bytes, count).Ok?
    ensures bytes == PutTrades(GetTrades(bytes, count).value.value, GetTrades(bytes, count).value.rest)
    decreases count
  {
    if count > 0 {
      TradeCanonical(bytes);
      TradesCanonical(GetTrade(bytes).value.rest, count - 1);
    }
  }

  // ------------------------------------------------------------ shared tails

  /** Cumulative volume, annotations and market signal, which end most payloads. */
  datatype Tail = Tail(volume: Observation<Volume>, annotations: Annotations, signal: Observation<MarketSignal>)

  predicate TailFits(t: Tail) {
    Fits(t.volume) && Fits(t.signal)
  }

  predicate ValidSignalObservation(o: Observation<MarketSignal>, utf8: Bytes -> bool) {
    ValidText(o, utf8) && (o.Set? ==> ValidSignal(o.value))
  }

  predicate ValidTail(t: Tail, utf8: Bytes -> bool) {
    ValidText(t.volume, utf8) && ValidSignalObservation(t.signal, utf8)
  }

  function PutTail(t: Tail, rest: Bytes): Bytes
    requires TailFits(t)
  {
    PutObservation(t.volume, PutVolume, PutAnnotations(t.annotations, PutObservation(t.signal, PutSignal, rest)))
  }

  function GetTail(bytes: Bytes, utf8: Bytes -> bool, agrees: Observation<Volume> -> bool): Decoded<Tail> {
    var volume :- GetObservation(bytes, GetVolume, utf8);
    var annotations :- GetAnnotations(volume.rest);
    if !agrees(volume.value) then Err(InvalidValue) else
    var signal :- GetObservation(annotations.rest, GetSignal, utf8);
    Ok(Parsed(Tail(volume.value, annotations.value, signal.value), signal.rest))
  }

  lemma {:induction false} VolumeObservationRoundTrip(o: Observation<Volume>, utf8: Bytes -> bool, rest: Bytes)
    requires Fits(o) && ValidText(o, utf8)
    ensures GetObservation(PutObservation(o, PutVolume, rest), GetVolume, utf8) == Ok(Parsed(o, rest))
  {
    if o.Set? {
      VolumeRoundTrip(o.value, rest);
    }
    ObservationRoundTrip(o, PutVolume, GetVolume, utf8, rest);
  }

  lemma {:induction false} VolumeObservationCanonical(bytes: Bytes, utf8: Bytes -> bool)
    requires GetObservation(bytes, GetVolume, utf8).Ok?
    ensures var o := GetObservation(bytes, GetVolume, utf8).value;
      Fits(o.value) && ValidText(o.value, utf8) && bytes == PutObservation(o.value, PutVolume, o.rest)
  {
    if bytes != [] && GetVolume(bytes[1..]).Ok? {
      VolumeCanonical(bytes[1..]);
    }
    ObservationCanonical(bytes, PutVolume, GetVolume, utf8);
  }

  lemma {:induction false} SignalObservationRoundTrip(o: Observation<MarketSignal>, utf8: Bytes -> bool, rest: Bytes)
    requires Fits(o) && ValidSignalObservation(o, utf8)
    ensures GetObservation(PutObservation(o, PutSignal, rest), GetSignal, utf8) == Ok(Parsed(o, rest))
  {
    if o.Set? {
      SignalRoundTrip(o.value, rest);
    }
    ObservationRoundTrip(o, PutSignal, GetSignal, utf8, rest);
  }

  lemma {:induction false} SignalObservationCanonical(bytes: Bytes, utf8: Bytes -> bool)
    requires GetObservation(bytes, GetSignal, utf8).Ok?
    ensures var o := GetObservation(bytes, GetSignal, utf8).value;
      Fits(o.value) && ValidSignalObservation(o.value, utf8) && bytes == PutObservation(o.value, PutSignal, o.rest)
  {
    if bytes != [] {
      SignalCanonical(bytes[1..]);
    }
    ObservationCanonical(bytes, PutSignal, GetSignal, utf8);
  }

  lemma {:induction false} TailRoundTrip(t: Tail, utf8: Bytes -> bool, agrees: Observation<Volume> -> bool, rest: Bytes)
    requires TailFits(t) && ValidTail(t, utf8) && agrees(t.volume)
    ensures GetTail(PutTail(t, rest), utf8, agrees) == Ok(Parsed(t, rest))
    ensures |PutTail(t, rest)| >= BATCH_SUFFIX_BYTES
  {
    var signal := PutObservation(t.signal, PutSignal, rest);
    SignalObservationRoundTrip(t.signal, utf8, rest);
    AnnotationsRoundTrip(t.annotations, signal);
    VolumeObservationRoundTrip(t.volume, utf8, PutAnnotations(t.annotations, signal));
    Nonempty(t, rest);
  }

  lemma {:induction false} Nonempty(t: Tail, rest: Bytes)
    requires TailFits(t)
    ensures |PutTail(t, rest)| >= |rest| + BATCH_SUFFIX_BYTES
  {
    var signal := PutObservation(t.signal, PutSignal, rest);
    ObservationGrows(t.signal, PutSignal, rest) by {
      if t.signal.Set? {
        SignalGrows(t.signal.value, rest);
      }
    }
    AnnotationsGrow(t.annotations, signal);
    var annotations := PutAnnotations(t.annotations, signal);
    Widths();
    if t.volume.Set? {
      PutNatShape(t.volume.value.value, 8, annotations);
    }
    ObservationGrows(t.volume, PutVolume, annotations);
  }

  lemma {:induction false} AnnotationsGrow(a: Annotations, rest: Bytes)
    ensures |PutAnnotations(a, rest)| > |rest|
  {
  }

  lemma {:induction false} SignalGrows(signal: MarketSignal, rest: Bytes)
    ensures |PutSignal(signal, rest)| > |rest|
  {
  }

  lemma {:induction false} ObservationGrows<T>(o: Observation<T>, put: (T, Bytes) -> Bytes, rest: Bytes)
    requires Fits(o) && (o.Set? ==> |put(o.value, rest)| >= |rest|)
    ensures |PutObservation(o, put, rest)| > |rest|
  {
    Widths();
    if o.Unknown? {
      match o.raw
      case Unsigned(x) => PutNatShape(x, 8, rest);
      case Signed(x) => PutNatShape(BigEndian.Unsigned(x, 8), 8, rest);
      case DecimalAtoms(x) => PutNatShape(BigEndian.Unsigned(x, 16), 16, rest);
      case Text(x) => PutNatShape(|x|, 4, x + rest);
      case Raw(x) => PutNatShape(|x|, 4, x + rest);
    }
  }

  lemma {:induction false} TailCanonical(bytes: Bytes, utf8: Bytes -> bool, agrees: Observation<Volume> -> bool)
    requires GetTail(bytes, utf8, agrees).Ok?
    ensures var t := GetTail(bytes, utf8, agrees).value;
      TailFits(t.value) && ValidTail(t.value, utf8) && agrees(t.value.volume) && bytes == PutTail(t.value, t.rest)
  {
    VolumeObservationCanonical(bytes, utf8);
    var volume := GetObservation(bytes, GetVolume, utf8).value;
    AnnotationsCanonical(volume.rest);
    SignalObservationCanonical(GetAnnotations(volume.rest).value.rest, utf8);
  }

  // ----------------------------------------------------------------- payloads

  predicate PayloadFits(p: Payload) {
    match p
    case QuoteSnapshot(book, trade, volume, annotations, signal) => Fits(trade) && Fits(volume) && Fits(signal)
    case BookSnapshot(book, annotations, signal) => Fits(signal)
    case TradeBatch(trades, order, volume, annotations, signal) => |trades| <= U32_MAX && Fits(volume) && Fits(signal)
    case IndicativeAuction(a) => Fits(a.price) && Fits(a.quantity) && Fits(a.book) && Fits(a.volume)
    case MarketStatus(volume, annotations, signal) => Fits(volume) && Fits(signal)
  }

  /** A payload as its constructors make it. */
  predicate ValidPayload(p: Payload, utf8: Bytes -> bool) {
    match p
    case QuoteSnapshot(book, trade, volume, annotations, signal) =>
      && ValidBook(book) && ValidText(trade, utf8) && ValidTail(Tail(volume, annotations, signal), utf8)
      && QuoteUnitsAgree(book, trade, volume)
    case BookSnapshot(book, annotations, signal) => ValidBook(book) && ValidSignalObservation(signal, utf8)
    case TradeBatch(trades, order, volume, annotations, signal) =>
      ValidTail(Tail(volume, annotations, signal), utf8) && BatchUnitsAgree(trades, volume)
    case IndicativeAuction(a) => ValidAuction(a, utf8)
    case MarketStatus(volume, annotations, signal) => ValidTail(Tail(volume, annotations, signal), utf8)
  }

  predicate ValidAuction(a: Auction, utf8: Bytes -> bool) {
    && ValidObservation(a.observation) && ValidText(a.price, utf8) && ValidText(a.quantity, utf8)
    && ValidText(a.book, utf8) && (a.book.Set? ==> ValidBook(a.book.value)) && ValidText(a.volume, utf8)
    && AuctionUnitsAgree(a.quantity, a.book, a.volume)
  }

  function PutQuote(p: Payload, rest: Bytes): Bytes
    requires p.QuoteSnapshot? && PayloadFits(p)
  {
    PutBook(p.book, PutObservation(p.trade, PutTrade, PutTail(Tail(p.volume, p.annotations, p.signal), rest)))
  }

  function GetQuote(bytes: Bytes, utf8: Bytes -> bool): Decoded<Payload> {
    var book :- GetBook(bytes);
    var trade :- GetObservation(book.rest, GetTrade, utf8);
    var tail :- GetTail(trade.rest, utf8, volume => QuoteUnitsAgree(book.value, trade.value, volume));
    Ok(Parsed(QuoteSnapshot(book.value, trade.value, tail.value.volume, tail.value.annotations, tail.value.signal), tail.rest))
  }

  lemma {:induction false} QuoteRoundTrip(p: Payload, utf8: Bytes -> bool, rest: Bytes)
    requires p.QuoteSnapshot? && PayloadFits(p) && ValidPayload(p, utf8)
    ensures GetQuote(PutQuote(p, rest), utf8) == Ok(Parsed(p, rest))
  {
    var t := Tail(p.volume, p.annotations, p.signal);
    var tail := PutTail(t, rest);
    TailRoundTrip(t, utf8, volume => QuoteUnitsAgree(p.book, p.trade, volume), rest);
    if p.trade.Set? {
      TradeRoundTrip(p.trade.value, tail);
    }
    ObservationRoundTrip(p.trade, PutTrade, GetTrade, utf8, tail);
    BookRoundTrip(p.book, PutObservation(p.trade, PutTrade, tail));
  }

  lemma {:induction false} QuoteCanonical(bytes: Bytes, utf8: Bytes -> bool)
    requires GetQuote(bytes, utf8).Ok?
    ensures var p := GetQuote(bytes, utf8).value;
      p.value.QuoteSnapshot? && PayloadFits(p.value) && ValidPayload(p.value, utf8) && bytes == PutQuote(p.value, p.rest)
  {
    BookCanonical(bytes);
    var book := GetBook(bytes).value;
    if book.rest != [] && GetTrade(book.rest[1..]).Ok? {
      TradeCanonical(book.rest[1..]);
    }
    ObservationCanonical(book.rest, PutTrade, GetTrade, utf8);
    var trade := GetObservation(book.rest, GetTrade, utf8).value;
    TailCanonical(trade.rest, utf8, volume => QuoteUnitsAgree(book.value, trade.value, volume));
  }

  function PutBookOnly(p: Payload, rest: Bytes): Bytes
    requires p.BookSnapshot? && PayloadFits(p)
  {
    PutBook(p.book, PutAnnotations(p.annotations, PutObservation(p.signal, PutSignal, rest)))
  }

  function GetBookOnly(bytes: Bytes, utf8: Bytes -> bool): Decoded<Payload> {
    var book :- GetBook(bytes);
    var annotations :- GetAnnotations(book.rest);
    var signal :- GetObservation(annotations.rest, GetSignal, utf8);
    Ok(Parsed(BookSnapshot(book.value, annotations.value, signal.value), signal.rest))
  }

  lemma {:induction false} BookOnlyRoundTrip(p: Payload, utf8: Bytes -> bool, rest: Bytes)
    requires p.BookSnapshot? && PayloadFits(p) && ValidPayload(p, utf8)
    ensures GetBookOnly(PutBookOnly(p, rest), utf8) == Ok(Parsed(p, rest))
  {
    var signal := PutObservation(p.signal, PutSignal, rest);
    SignalObservationRoundTrip(p.signal, utf8, rest);
    AnnotationsRoundTrip(p.annotations, signal);
    BookRoundTrip(p.book, PutAnnotations(p.annotations, signal));
  }

  lemma {:induction false} BookOnlyCanonical(bytes: Bytes, utf8: Bytes -> bool)
    requires GetBookOnly(bytes, utf8).Ok?
    ensures var p := GetBookOnly(bytes, utf8).value;
      p.value.BookSnapshot? && PayloadFits(p.value) && ValidPayload(p.value, utf8) && bytes == PutBookOnly(p.value, p.rest)
  {
    BookCanonical(bytes);
    var book := GetBook(bytes).value;
    AnnotationsCanonical(book.rest);
    SignalObservationCanonical(GetAnnotations(book.rest).value.rest, utf8);
  }

  function PutBatch(p: Payload, rest: Bytes): Bytes
    requires p.TradeBatch? && PayloadFits(p)
  {
    PutU32(|p.trades|, PutBatchBody(p, rest))
  }

  function PutBatchBody(p: Payload, rest: Bytes): Bytes
    requires p.TradeBatch? && PayloadFits(p)
  {
    PutTrades(p.trades, PutBatchEnd(p, rest))
  }

  function PutBatchEnd(p: Payload, rest: Bytes): Bytes
    requires p.TradeBatch? && PayloadFits(p)
  {
    PutU8(if p.order == Unspecified then 0 else 1, PutTail(Tail(p.volume, p.annotations, p.signal), rest))
  }

  /** A trade count that the remaining bytes cannot hold is refused before any trade is read. */
  function GetBatch(bytes: Bytes, utf8: Bytes -> bool): Decoded<Payload> {
    var count :- GetU32(bytes);
    if count.value > MaximumCount(|count.rest|) then Err(LengthOutOfBounds) else GetBatchBody(count.rest, count.value, utf8)
  }

  function MaximumCount(remaining: nat): nat {
    Max(0, remaining - BATCH_SUFFIX_BYTES) / TRADE_BYTES
  }

  function GetBatchBody(bytes: Bytes, count: nat, utf8: Bytes -> bool): Decoded<Payload> {
    var trades :- GetTrades(bytes, count);
    GetBatchEnd(trades.rest, trades.value, utf8)
  }

  function GetBatchEnd(bytes: Bytes, trades: seq<ObservedTrade>, utf8: Bytes -> bool): Decoded<Payload> {
    var order :- GetU8(bytes);
    if order.value > 1 then Err(InvalidValue) else
    var tail :- GetTail(order.rest, utf8, volume => BatchUnitsAgree(trades, volume));
    Ok(Parsed(TradeBatch(trades, if order.value == 0 then Unspecified else SourceSequencePreserved, tail.value.volume,
                         tail.value.annotations, tail.value.signal), tail.rest))
  }

  lemma {:induction false} BatchEndCanonical(bytes: Bytes, trades: seq<ObservedTrade>, utf8: Bytes -> bool)
    requires |trades| <= U32_MAX && GetBatchEnd(bytes, trades, utf8).Ok?
    ensures var p := GetBatchEnd(bytes, trades, utf8).value;
      && p.value.TradeBatch? && p.value.trades == trades && PayloadFits(p.value) && ValidPayload(p.value, utf8)
      && bytes == PutBatchEnd(p.value, p.rest)
  {
    TailCanonical(bytes[1..], utf8, volume => BatchUnitsAgree(trades, volume));
  }

  lemma {:induction false} BatchBodyRoundTrip(p: Payload, utf8: Bytes -> bool, rest: Bytes)
    requires p.TradeBatch? && PayloadFits(p) && ValidPayload(p, utf8)
    ensures GetBatchBody(PutBatchBody(p, rest), |p.trades|, utf8) == Ok(Parsed(p, rest))
    ensures |p.trades| <= MaximumCount(|PutBatchBody(p, rest)|)
  {
    var t := Tail(p.volume, p.annotations, p.signal);
    var tail := PutTail(t, rest);
    TailRoundTrip(t, utf8, volume => BatchUnitsAgree(p.trades, volume), rest);
    var order := PutU8(if p.order == Unspecified then 0 else 1, tail);
    TradesRoundTrip(p.trades, order);
    HoldsCount(|p.trades|, |order|, |PutTrades(p.trades, order)|);
  }

  lemma {:induction false} HoldsCount(count: nat, suffix: nat, length: nat)
    requires length == TRADE_BYTES * count + suffix && suffix >= BATCH_SUFFIX_BYTES
    ensures count <= MaximumCount(length)
  {
  }

  lemma {:induction false} BatchRoundTrip(p: Payload, utf8: Bytes -> bool, rest: Bytes)
    requires p.TradeBatch? && PayloadFits(p) && ValidPayload(p, utf8)
    ensures GetBatch(PutBatch(p, rest), utf8) == Ok(Parsed(p, rest))
  {
    BatchBodyRoundTrip(p, utf8, rest);
    IntegersRoundTrip(0, 0, 0, 0, |p.trades|, PutBatchBody(p, rest));
  }

  lemma {:induction false} BatchBodyCanonical(bytes: Bytes, count: nat, utf8: Bytes -> bool)
    requires count <= U32_MAX && GetBatchBody(bytes, count, utf8).Ok?
    ensures var p := GetBatchBody(bytes, count, utf8).value;
      && p.value.TradeBatch? && |p.value.trades| == count && PayloadFits(p.value) && ValidPayload(p.value, utf8)
      && bytes == PutBatchBody(p.value, p.rest)
  {
    TradesCanonical(bytes, count);
    var trades := GetTrades(bytes, count).value;
    BatchEndCanonical(trades.rest, trades.value, utf8);
  }

  lemma {:induction false} BatchCanonical(bytes: Bytes, utf8: Bytes -> bool)
    requires GetBatch(bytes, utf8).Ok?
    ensures var p := GetBatch(bytes, utf8).value;
      p.value.TradeBatch? && PayloadFits(p.value) && ValidPayload(p.value, utf8) && bytes == PutBatch(p.value, p.rest)
  {
    U32Canonical(bytes);
    var count := GetU32(bytes).value;
    BatchBodyCanonical(count.rest, count.value, utf8);
  }

  function PutAuction(a: Auction, rest: Bytes): Bytes
    requires PayloadFits(IndicativeAuction(a))
  {
    PutRound(a.observation, PutObservation(a.price, PutI128, PutObservation(a.quantity, PutQuantity,
      PutObservation(a.book, PutBook, PutObservation(a.volume, PutVolume, PutAnnotations(a.annotations, rest))))))
  }

  function GetAuction(bytes: Bytes, utf8: Bytes -> bool): Decoded<Auction> {
    var observation :- GetRound(bytes);
    var price :- GetObservation(observation.rest, GetI128, utf8);
    var quantity :- GetObservation(price.rest, GetQuantity, utf8);
    var book :- GetObservation(quantity.rest, GetBook, utf8);
    var volume :- GetObservation(book.rest, GetVolume, utf8);
    var annotations :- GetAnnotations(volume.rest);
    if !AuctionUnitsAgree(quantity.value, book.value, volume.value) then Err(InvalidValue)
    else Ok(Parsed(Auction(observation.value, price.value, quantity.value, book.value, volume.value, annotations.value),
                   annotations.rest))
  }

  lemma {:induction false} AuctionRoundTrip(a: Auction, utf8: Bytes -> bool, rest: Bytes)
    requires PayloadFits(IndicativeAuction(a)) && ValidAuction(a, utf8)
    ensures GetAuction(PutAuction(a, rest), utf8) == Ok(Parsed(a, rest))
  {
    var annotations := PutAnnotations(a.annotations, rest);
    AnnotationsRoundTrip(a.annotations, rest);
    VolumeObservationRoundTrip(a.volume, utf8, annotations);
    var volume := PutObservation(a.volume, PutVolume, annotations);
    if a.book.Set? {
      BookRoundTrip(a.book.value, volume);
    }
    ObservationRoundTrip(a.book, PutBook, GetBook, utf8, volume);
    var book := PutObservation(a.book, PutBook, volume);
    if a.quantity.Set? {
      QuantityRoundTrip(a.quantity.value, book);
    }
    ObservationRoundTrip(a.quantity, PutQuantity, GetQuantity, utf8, book);
    var quantity := PutObservation(a.quantity, PutQuantity, book);
    if a.price.Set? {
      IntegersRoundTrip(0, a.price.value, 0, 0, 0, quantity);
    }
    ObservationRoundTrip(a.price, PutI128, GetI128, utf8, quantity);
    RoundRoundTrip(a.observation, PutObservation(a.price, PutI128, quantity));
  }

  lemma {:induction false} AuctionCanonical(bytes: Bytes, utf8: Bytes -> bool)
    requires GetAuction(bytes, utf8).Ok?
    ensures var a := GetAuction(bytes, utf8).value;
      PayloadFits(IndicativeAuction(a.value)) && ValidAuction(a.value, utf8) && bytes == PutAuction(a.value, a.rest)
  {
    RoundCanonical(bytes);
    var b0 := GetRound(bytes).value.rest;
    if b0 != [] && GetI128(b0[1..]).Ok? {
      I128Canonical(b0[1..]);
    }
    ObservationCanonical(b0, PutI128, GetI128, utf8);
    var b1 := GetObservation(b0, GetI128, utf8).value.rest;
    if b1 != [] && GetQuantity(b1[1..]).Ok? {
      QuantityCanonical(b1[1..]);
    }
    ObservationCanonical(b1, PutQuantity, GetQuantity, utf8);
    var b2 := GetObservation(b1, GetQuantity, utf8).value.rest;
    if b2 != [] {
      BookCanonical(b2[1..]);
    }
    ObservationCanonical(b2, PutBook, GetBook, utf8);
    var b3 := GetObservation(b2, GetBook, utf8).value.rest;
    VolumeObservationCanonical(b3, utf8);
    AnnotationsCanonical(GetObservation(b3, GetVolume, utf8).value.rest);
  }

  // -------------------------------------------------------------------- frames

  function PayloadTag(p: Payload): byte {
    match p
    case QuoteSnapshot(_, _, _, _, _) => 10
    case BookSnapshot(_, _, _) => 20
    case TradeBatch(_, _, _, _, _) => 30
    case IndicativeAuction(_) => 40
    case MarketStatus(_, _, _) => 50
  }

  function PutBody(p: Payload, rest: Bytes): Bytes
    requires PayloadFits(p)
  {
    match p
    case QuoteSnapshot(_, _, _, _, _) => PutQuote(p, rest)
    case BookSnapshot(_, _, _) => PutBookOnly(p, rest)
    case TradeBatch(_, _, _, _, _) => PutBatch(p, rest)
    case IndicativeAuction(a) => PutAuction(a, rest)
    case MarketStatus(_, _, _) => PutStatus(p, rest)
  }

  function PutStatus(p: Payload, rest: Bytes): Bytes
    requires p.MarketStatus? && PayloadFits(p)
  {
    PutTail(Tail(p.volume, p.annotations, p.signal), rest)
  }

  function GetStatus(bytes: Bytes, utf8: Bytes -> bool): Decoded<Payload> {
    var t :- GetTail(bytes, utf8, _ => true);
    Ok(Parsed(MarketStatus(t.value.volume, t.value.annotations, t.value.signal), t.rest))
  }

  lemma {:induction false} StatusRoundTrip(p: Payload, utf8: Bytes -> bool, rest: Bytes)
    requires p.MarketStatus? && PayloadFits(p) && ValidPayload(p, utf8)
    ensures GetStatus(PutStatus(p, rest), utf8) == Ok(Parsed(p, rest))
  {
    TailRoundTrip(Tail(p.volume, p.annotations, p.signal), utf8, _ => true, rest);
  }

  lemma {:induction false} StatusCanonical(bytes: Bytes, utf8: Bytes -> bool)
    requires GetStatus(bytes, utf8).Ok?
    ensures var p := GetStatus(bytes, utf8).value;
      p.value.MarketStatus? && PayloadFits(p.value) && ValidPayload(p.value, utf8) && bytes == PutStatus(p.value, p.rest)
  {
    TailCanonical(bytes, utf8, _ => true);
  }

  function GetIndicative(bytes: Bytes, utf8: Bytes -> bool): Decoded<Payload> {
    var a :- GetAuction(bytes, utf8);
    Ok(Parsed(IndicativeAuction(a.value), a.rest))
  }

  function GetBody(tag: byte, bytes: Bytes, utf8: Bytes -> bool): Decoded<Payload> {
    if tag == 10 then GetQuote(bytes, utf8)
    else if tag == 20 then GetBookOnly(bytes, utf8)
    else if tag == 30 then GetBatch(bytes, utf8)
    else if tag == 40 then GetIndicative(bytes, utf8)
    else if tag == 50 then GetStatus(bytes, utf8)
    else Err(InvalidValue)
  }

  function PutPayload(p: Payload, rest: Bytes): Bytes
    requires PayloadFits(p)
  {
    PutU8(PayloadTag(p), PutBody(p, rest))
  }

  function GetPayload(bytes: Bytes, utf8: Bytes -> bool): Decoded<Payload> {
    var tag :- GetU8(bytes);
    GetBody(tag.value, tag.rest, utf8)
  }

  lemma {:induction false} PayloadRoundTrip(p: Payload, utf8: Bytes -> bool, rest: Bytes)
    requires PayloadFits(p) && ValidPayload(p, utf8)
    ensures GetPayload(PutPayload(p, rest), utf8) == Ok(Parsed(p, rest))
  {
    BodyRoundTrip(p, utf8, rest);
  }

  lemma {:induction false} BodyRoundTrip(p: Payload, utf8: Bytes -> bool, rest: Bytes)
    requires PayloadFits(p) && ValidPayload(p, utf8)
    ensures GetBody(PayloadTag(p), PutBody(p, rest), utf8) == Ok(Parsed(p, rest))
  {
    var tag, body := PayloadTag(p), PutBody(p, rest);
    if p.QuoteSnapshot? {
      QuoteRoundTrip(p, utf8, rest);
      assert GetBody(tag, body, utf8) == GetQuote(PutQuote(p, rest), utf8);
    } else if p.BookSnapshot? {
      BookOnlyRoundTrip(p, utf8, rest);
      assert GetBody(tag, body, utf8) == GetBookOnly(PutBookOnly(p, rest), utf8);
    } else if p.TradeBatch? {
      BatchRoundTrip(p, utf8, rest);
      assert GetBody(tag, body, utf8) == GetBatch(PutBatch(p, rest), utf8);
    } else if p.IndicativeAuction? {
      AuctionRoundTrip(p.auction, utf8, rest);
      assert GetBody(tag, body, utf8) == GetIndicative(PutAuction(p.auction, rest), utf8);
    } else {
      StatusRoundTrip(p, utf8, rest);
    }
  }

  lemma {:induction false} PayloadCanonical(bytes: Bytes, utf8: Bytes -> bool)
    requires GetPayload(bytes, utf8).Ok?
    ensures var p := GetPayload(bytes, utf8).value;
      PayloadFits(p.value) && ValidPayload(p.value, utf8) && bytes == PutPayload(p.value, p.rest)
  {
    var tail := bytes[1..];
    if bytes[0] == 10 {
      QuoteCanonical(tail, utf8);
    } else if bytes[0] == 20 {
      BookOnlyCanonical(tail, utf8);
    } else if bytes[0] == 30 {
      BatchCanonical(tail, utf8);
    } else if bytes[0] == 40 {
      AuctionCanonical(tail, utf8);
    } else {
      StatusCanonical(tail, utf8);
    }
  }

  function MarketOf(tag: byte): Result<MarketId, DecodeError> {
    if tag == 1 then Ok(Twse) else if tag == 2 then Ok(Tpex) else if tag == 3 then Ok(Taifex) else Err(InvalidValue)
  }

  function PutHeader(rest: Bytes): Bytes {
    Widths(); MAGIC + PutNat(CANONICAL_VERSION, 2, PutNat(SCHEMA_VERSION, 2, rest))
  }

  function GetHeader(bytes: Bytes): Decoded<()> {
    var magic :- Take(bytes, 4);
    if magic.value != MAGIC then Err(UnsupportedHeader) else
    var version :- GetNat(magic.rest, 2);
    if version.value != CANONICAL_VERSION then Err(UnsupportedHeader) else
    var schema :- GetNat(version.rest, 2);
    if schema.value != SCHEMA_VERSION then Err(UnsupportedHeader) else Ok(Parsed((), schema.rest))
  }

  lemma {:induction false} HeaderRoundTrip(rest: Bytes)
    ensures GetHeader(PutHeader(rest)) == Ok(Parsed((), rest))
  {
    Widths();
    var versions := PutNat(CANONICAL_VERSION, 2, PutNat(SCHEMA_VERSION, 2, rest));
    assert (MAGIC + versions)[..4] == MAGIC && (MAGIC + versions)[4..] == versions;
    NatRoundTrip(CANONICAL_VERSION, 2, PutNat(SCHEMA_VERSION, 2, rest));
    NatRoundTrip(SCHEMA_VERSION, 2, rest);
  }

  lemma {:induction false} HeaderCanonical(bytes: Bytes)
    requires GetHeader(bytes).Ok?
    ensures bytes == PutHeader(GetHeader(bytes).value.rest)
  {
    assert bytes == bytes[..4] + bytes[4..];
    NatCanonical(bytes[4..], 2);
    NatCanonical(GetNat(bytes[4..], 2).value.rest, 2);
  }

  predicate ValidName(name: Bytes, utf8: Bytes -> bool) {
    name != [] && utf8(name)
  }

  function GetName(bytes: Bytes, utf8: Bytes -> bool): Decoded<Bytes> {
    var name :- GetText(bytes, utf8);
    if name.value == [] then Err(InvalidValue) else Ok(name)
  }

  lemma {:induction false} NameRoundTrip(name: Bytes, utf8: Bytes -> bool, rest: Bytes)
    requires |name| <= U32_MAX && ValidName(name, utf8)
    ensures GetName(PutBytes(name, rest), utf8) == Ok(Parsed(name, rest))
  {
    BytesRoundTrip(name, rest);
  }

  lemma {:induction false} NameCanonical(bytes: Bytes, utf8: Bytes -> bool)
    requires GetName(bytes, utf8).Ok?
    ensures var name := GetName(bytes, utf8).value;
      |name.value| <= U32_MAX && ValidName(name.value, utf8) && bytes == PutBytes(name.value, name.rest)
  {
    BytesCanonical(bytes);
  }

  /** Where and on which date an event belongs. */
  datatype Place = Place(market: MarketId, symbol: Bytes, tradingDate: i32)

  predicate ValidPlace(p: Place, utf8: Bytes -> bool) {
    ValidName(p.symbol, utf8) && MIN_EPOCH_DAYS <= p.tradingDate <= MAX_EPOCH_DAYS
  }

  function PutPlace(p: Place, rest: Bytes): Bytes
    requires |p.symbol| <= U32_MAX
  {
    PutU8(MarketTag(p.market), PutBytes(p.symbol, PutI32(p.tradingDate, rest)))
  }

  function GetPlace(bytes: Bytes, utf8: Bytes -> bool): Decoded<Place> {
    var tag :- GetU8(bytes);
    var market :- MarketOf(tag.value);
    var symbol :- GetName(tag.rest, utf8);
    var date :- GetI32(symbol.rest);
    if MIN_EPOCH_DAYS <= date.value <= MAX_EPOCH_DAYS then Ok(Parsed(Place(market, symbol.value, date.value), date.rest))
    else Err(InvalidValue)
  }

  lemma {:induction false} PlaceRoundTrip(p: Place, utf8: Bytes -> bool, rest: Bytes)
    requires |p.symbol| <= U32_MAX && ValidPlace(p, utf8)
    ensures GetPlace(PutPlace(p, rest), utf8) == Ok(Parsed(p, rest))
  {
    IntegersRoundTrip(0, 0, 0, p.tradingDate, 0, rest);
    NameRoundTrip(p.symbol, utf8, PutI32(p.tradingDate, rest));
  }

  lemma {:induction false} PlaceCanonical(bytes: Bytes, utf8: Bytes -> bool)
    requires GetPlace(bytes, utf8).Ok?
    ensures var p := GetPlace(bytes, utf8).value;
      |p.value.symbol| <= U32_MAX && ValidPlace(p.value, utf8) && bytes == PutPlace(p.value, p.rest)
  {
    NameCanonical(bytes[1..], utf8);
    I32Canonical(GetName(bytes[1..], utf8).value.rest);
  }

  /** Which source reported an event, when, and in which position. */
  datatype Origin = Origin(sourceFormat: Bytes, matchTime: i64, sourceSequence: Option<u64>)

  function PutOrigin(o: Origin, rest: Bytes): Bytes
    requires |o.sourceFormat| <= U32_MAX
  {
    PutBytes(o.sourceFormat, PutI64(o.matchTime, PutOptional(o.sourceSequence, PutU64, rest)))
  }

  function GetOrigin(bytes: Bytes, utf8: Bytes -> bool): Decoded<Origin> {
    var format :- GetName(bytes, utf8);
    var time :- GetI64(format.rest);
    if !InstantText.Representable(time.value) then Err(InvalidValue) else
    var sequence :- GetOptional(time.rest, GetU64);
    Ok(Parsed(Origin(format.value, time.value, sequence.value), sequence.rest))
  }

  lemma {:induction false} OriginRoundTrip(o: Origin, utf8: Bytes -> bool, rest: Bytes)
    requires |o.sourceFormat| <= U32_MAX && ValidName(o.sourceFormat, utf8) && InstantText.Representable(o.matchTime)
    ensures GetOrigin(PutOrigin(o, rest), utf8) == Ok(Parsed(o, rest))
  {
    if o.sourceSequence.Some? {
      IntegersRoundTrip(o.sourceSequence.value, 0, 0, 0, 0, rest);
    }
    OptionalRoundTrip(o.sourceSequence, PutU64, GetU64, rest);
    var sequence := PutOptional(o.sourceSequence, PutU64, rest);
    IntegersRoundTrip(0, 0, o.matchTime, 0, 0, sequence);
    NameRoundTrip(o.sourceFormat, utf8, PutI64(o.matchTime, sequence));
  }

  lemma {:induction false} OriginCanonical(bytes: Bytes, utf8: Bytes -> bool)
    requires GetOrigin(bytes, utf8).Ok?
    ensures var o := GetOrigin(bytes, utf8).value;
      && |o.value.sourceFormat| <= U32_MAX && ValidName(o.value.sourceFormat, utf8) && InstantText.Representable(o.value.matchTime)
      && bytes == PutOrigin(o.value, o.rest)
  {
    NameCanonical(bytes, utf8);
    var time := GetName(bytes, utf8).value.rest;
    I64Canonical(time);
    var sequence := GetI64(time).value.rest;
    if sequence != [] && GetU64(sequence[1..]).Ok? {
      U64Canonical(sequence[1..]);
    }
    OptionalCanonical(sequence, PutU64, GetU64);
  }

  function PlaceOf(e: Event): Place {
    Place(e.instrument.market, e.instrument.symbol, e.tradingDate)
  }

  function OriginOf(e: Event): Origin {
    Origin(e.sourceFormat, e.matchTime, e.sourceSequence)
  }

  /** An event as its constructors make it. */
  predicate ValidEvent(e: Event, utf8: Bytes -> bool) {
    ValidPlace(PlaceOf(e), utf8) && ValidName(e.sourceFormat, utf8) && ValidPayload(e.payload, utf8)
  }

  /** Every length fits its four bytes. */
  predicate EventFits(e: Event) {
    |e.instrument.symbol| <= U32_MAX && |e.sourceFormat| <= U32_MAX && PayloadFits(e.payload)
  }

  datatype EncodeError = InvalidMatchTime | LengthOverflow

  function Encode(e: Event): Result<Bytes, EncodeError> {
    if !InstantText.Representable(e.matchTime) then Err(InvalidMatchTime)
    else if !EventFits(e) then Err(LengthOverflow)
    else Ok(PutHeader(PutPlace(PlaceOf(e), PutOrigin(OriginOf(e), PutPayload(e.payload, [])))))
  }

  /** The payload, after which nothing may follow. */
  function DecodeContents(bytes: Bytes, place: Place, origin: Origin, utf8: Bytes -> bool): Result<Event, DecodeError> {
    var payload :- GetPayload(bytes, utf8);
    if payload.rest != [] then Err(TrailingBytes)
    else Ok(Event(InstrumentId(place.market, place.symbol), place.tradingDate, origin.sourceFormat, origin.matchTime,
                  origin.sourceSequence, payload.value))
  }

  function DecodeEnvelope(bytes: Bytes, utf8: Bytes -> bool): Result<Event, DecodeError> {
    var place :- GetPlace(bytes, utf8);
    var origin :- GetOrigin(place.rest, utf8);
    DecodeContents(origin.rest, place.value, origin.value, utf8)
  }

  function Decode(bytes: Bytes, utf8: Bytes -> bool): Result<Event, DecodeError> {
    var header :- GetHeader(bytes);
    DecodeEnvelope(header.rest, utf8)
  }

  // ------------------------------------------------------------- main results

  /** Every valid event that has an encoding is what its encoding decodes to. */
  lemma {:induction false} DecodeInvertsEncode(e: Event, utf8: Bytes -> bool)
    requires ValidEvent(e, utf8) && Encode(e).Ok?
    ensures Decode(Encode(e).value, utf8) == Ok(e)
  {
    var payload := PutPayload(e.payload, []);
    PayloadRoundTrip(e.payload, utf8, []);
    OriginRoundTrip(OriginOf(e), utf8, payload);
    PlaceRoundTrip(PlaceOf(e), utf8, PutOrigin(OriginOf(e), payload));
    HeaderRoundTrip(PutPlace(PlaceOf(e), PutOrigin(OriginOf(e), payload)));
  }

  lemma {:induction false} ContentsCanonical(bytes: Bytes, place: Place, origin: Origin, utf8: Bytes -> bool)
    requires DecodeContents(bytes, place, origin, utf8).Ok?
    ensures var e := DecodeContents(bytes, place, origin, utf8).value;
      && PlaceOf(e) == place && OriginOf(e) == origin
      && PayloadFits(e.payload) && ValidPayload(e.payload, utf8) && bytes == PutPayload(e.payload, [])
  {
    PayloadCanonical(bytes, utf8);
  }

  lemma {:induction false} EnvelopeCanonical(bytes: Bytes, utf8: Bytes -> bool)
    requires DecodeEnvelope(bytes, utf8).Ok?
    ensures var e := DecodeEnvelope(bytes, utf8).value;
      && ValidEvent(e, utf8) && EventFits(e) && InstantText.Representable(e.matchTime)
      && bytes == PutPlace(PlaceOf(e), PutOrigin(OriginOf(e), PutPayload(e.payload, [])))
  {
    PlaceCanonical(bytes, utf8);
    var place := GetPlace(bytes, utf8).value;
    OriginCanonical(place.rest, utf8);
    var origin := GetOrigin(place.rest, utf8).value;
    ContentsCanonical(origin.rest, place.value, origin.value, utf8);
  }

  /** Accepted bytes are the encoding of the event they decode to, which is valid. */
  lemma {:induction false} EncodeInvertsDecode(bytes: Bytes, utf8: Bytes -> bool)
    requires Decode(bytes, utf8).Ok?
    ensures ValidEvent(Decode(bytes, utf8).value, utf8)
    ensures Encode(Decode(bytes, utf8).value) == Ok(bytes)
  {
    HeaderCanonical(bytes);
    EnvelopeCanonical(GetHeader(bytes).value.rest, utf8);
  }

  /** Different valid events have different encodings. */
  lemma {:induction false} EncodeInjective(e: Event, f: Event, utf8: Bytes -> bool)
    requires ValidEvent(e, utf8) && ValidEvent(f, utf8)
    requires Encode(e).Ok? && Encode(e) == Encode(f)
    ensures e == f
  {
    DecodeInvertsEncode(e, utf8);
    DecodeInvertsEncode(f, utf8);
  }
}
