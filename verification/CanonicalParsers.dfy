/** The parser of the source: an offset that moves through the bytes. Every method reads what its specification takes. */
module CanonicalParsers {
  import opened Wrappers
  import opened MachineIntegers
  import opened MarketTypes
  import opened Book
  import opened Events
  import opened BigEndian
  import opened FieldCodec
  import opened EventCodec
  import opened FrameCodec
  import opened CivilDate
  import InstantText

  class CanonicalParser {
    const bytes: Bytes
    const utf8: Bytes -> bool
    var offset: nat

    ghost predicate Valid()
      reads this
    {
      offset <= |bytes|
    }

    ghost function Rest(): Bytes
      reads this
      requires Valid()
    {
      bytes[offset..]
    }

    /** The result is the decoded one, and after a success the rest is what decoding left. */
    ghost predicate Follows<T>(decoded: Decoded<T>, r: Result<T, DecodeError>)
      reads this
    {
      Valid() && match decoded {
        case Ok(parsed) => r == Ok(parsed.value) && Rest() == parsed.rest
        case Err(e) => r == Err(e)
      }
    }

    constructor (bytes: Bytes, utf8: Bytes -> bool)
      ensures Valid() && this.bytes == bytes && this.utf8 == utf8 && Rest() == bytes
    {
      this.bytes := bytes;
      this.utf8 := utf8;
      offset := 0;
    }

    method TakeBytes(length: nat) returns (r: Result<Bytes, DecodeError>)
      requires Valid()
      modifies this
      ensures Follows(Take(old(Rest()), length), r)
    {
      var end := offset + length;
      if end > |bytes| {
        return Err(Truncated);
      }
      var value := bytes[offset..end];
      assert value == Rest()[..length] && bytes[end..] == Rest()[length..];
      offset := end;
      return Ok(value);
    }

    method Number(width: nat) returns (r: Result<nat, DecodeError>)
      requires Valid()
      modifies this
      ensures Follows(GetNat(old(Rest()), width), r)
    {
      var taken :- TakeBytes(width);
      return Ok(NatOf(taken));
    }

    method U8() returns (r: Result<byte, DecodeError>)
      requires Valid()
      modifies this
      ensures Follows(GetU8(old(Rest())), r)
    {
      if offset == |bytes| {
        return Err(Truncated);
      }
      offset := offset + 1;
      return Ok(bytes[offset - 1]);
    }

    method U64() returns (r: Result<u64, DecodeError>)
      requires Valid()
      modifies this
      ensures Follows(GetU64(old(Rest())), r)
    {
      ghost var before := Rest();
      var n :- Number(8);
      NatOfBounds(before[..8]);
      Widths();
      return Ok(n);
    }

    method I64() returns (r: Result<i64, DecodeError>)
      requires Valid()
      modifies this
      ensures Follows(GetI64(old(Rest())), r)
    {
      ghost var before := Rest();
      var n :- Number(8);
      NatOfBounds(before[..8]);
      Widths();
      return Ok(BigEndian.Signed(n, 8));
    }

    method I32() returns (r: Result<i32, DecodeError>)
      requires Valid()
      modifies this
      ensures Follows(GetI32(old(Rest())), r)
    {
      ghost var before := Rest();
      var n :- Number(4);
      NatOfBounds(before[..4]);
      Widths();
      return Ok(BigEndian.Signed(n, 4));
    }

    method I128() returns (r: Result<i128, DecodeError>)
      requires Valid()
      modifies this
      ensures Follows(GetI128(old(Rest())), r)
    {
      ghost var before := Rest();
      var n :- Number(16);
      NatOfBounds(before[..16]);
      Widths();
      return Ok(BigEndian.Signed(n, 16));
    }

    method ByteString() returns (r: Result<Bytes, DecodeError>)
      requires Valid()
      modifies this
      ensures Follows(GetBytes(old(Rest())), r)
    {
      var length :- Number(4);
      r := TakeBytes(length);
    }

    method TextString() returns (r: Result<Bytes, DecodeError>)
      requires Valid()
      modifies this
      ensures Follows(GetText(old(Rest()), utf8), r)
    {
      r := ByteString();
      if r.Ok? && !utf8(r.value) {
        return Err(InvalidUtf8);
      }
    }

    method Name() returns (r: Result<Bytes, DecodeError>)
      requires Valid()
      modifies this
      ensures Follows(GetName(old(Rest()), utf8), r)
    {
      r := TextString();
      if r.Ok? && r.value == [] {
        return Err(InvalidValue);
      }
    }

    method VolumeValue() returns (r: Result<Volume, DecodeError>)
      requires Valid()
      modifies this
      ensures Follows(GetVolume(old(Rest())), r)
    {
      var tag :- U8();
      var unit :- UnitOf(tag);
      var value :- U64();
      return Ok(Volume(value, unit));
    }

    method QuantityValue() returns (r: Result<Quantity, DecodeError>)
      requires Valid()
      modifies this
      ensures Follows(GetQuantity(old(Rest())), r)
    {
      var volume :- VolumeValue();
      if volume.value == 0 {
        return Err(InvalidValue);
      }
      return Ok(Quantity(volume.value, volume.unit));
    }

    method TradeValue() returns (r: Result<ObservedTrade, DecodeError>)
      requires Valid()
      modifies this
      ensures Follows(GetTrade(old(Rest())), r)
    {
      var price :- I128();
      var quantity :- QuantityValue();
      var kind :- U8();
      if kind > 1 {
        return Err(InvalidValue);
      }
      return Ok(ObservedTrade(price, quantity, if kind == 0 then Regular else Intermediate));
    }

    // ------------------------------------------------------------------- books

    method MarketOrders() returns (r: Result<Option<Quantity>, DecodeError>)
      requires Valid()
      modifies this
      ensures Follows(GetOptional(old(Rest()), GetQuantity), r)
    {
      var tag :- U8();
      if tag == 0 {
        return Ok(None);
      }
      if tag != 1 {
        return Err(InvalidValue);
      }
      var quantity :- QuantityValue();
      return Ok(Some(quantity));
    }

    method Slot() returns (r: Result<Option<BookLevel>, DecodeError>)
      requires Valid()
      modifies this
      ensures Follows(GetOptional(old(Rest()), GetLevel), r)
    {
      var tag :- U8();
      if tag == 0 {
        return Ok(None);
      }
      if tag != 1 {
        return Err(InvalidValue);
      }
      var price :- I128();
      var displayed :- QuantityValue();
      return Ok(Some(BookLevel(price, displayed)));
    }

    method Slots() returns (r: Result<seq<Option<BookLevel>>, DecodeError>)
      requires Valid()
      modifies this
      ensures Follows(GetSlots(old(Rest()), BOOK_DEPTH), r)
    {
      var slots := [];
      ghost var whole := GetSlots(Rest(), BOOK_DEPTH);
      for i := 0 to BOOK_DEPTH
        invariant Valid() && |slots| == i && whole == PrependTo(slots, GetSlots(Rest(), BOOK_DEPTH - i))
      {
        SlotsStep(Rest(), BOOK_DEPTH - i);
        var slot := Slot();
        if slot.Err? {
          PrependMeaning(slots, Err(slot.error));
          return Err(slot.error);
        }
        PrependNext(slots, slot.value, GetSlots(Rest(), BOOK_DEPTH - (i + 1)));
        slots := slots + [slot.value];
      }
      PrependAll(slots, Rest());
      return Ok(slots);
    }

    method Side(kind: SideKind) returns (r: Result<BookSide, DecodeError>)
      requires Valid()
      modifies this
      ensures Follows(GetSide(old(Rest()), kind), r)
    {
      var marketOrders :- MarketOrders();
      var slots :- Slots();
      assert |slots| == BOOK_DEPTH;
      var side: BookSide := BookSide(kind, marketOrders, slots);
      var valid := Validate(side);
      if valid.Err? {
        return Err(InvalidValue);
      }
      return Ok(side);
    }

    method BookValue() returns (r: Result<Snapshot, DecodeError>)
      requires Valid()
      modifies this
      ensures Follows(GetBook(old(Rest())), r)
    {
      var bids :- Side(Bid);
      var asks :- Side(Ask);
      match NewSnapshot(bids, asks)
      case Ok(book) =>
        return Ok(book);
      case Err(_) =>
        return Err(InvalidValue);
    }

    method Trades(count: nat) returns (r: Result<seq<ObservedTrade>, DecodeError>)
      requires Valid()
      modifies this
      ensures Follows(GetTrades(old(Rest()), count), r)
    {
      var trades := [];
      ghost var whole := GetTrades(Rest(), count);
      for i := 0 to count
        invariant Valid() && |trades| == i
        invariant TradesRead(whole, trades, Rest(), count - i) == true
      {
        ghost var before := Rest();
        var trade := TradeValue();
        TradesNext(whole, trades, before, count - i);
        if trade.Err? {
          return Err(trade.error);
        }
        trades := trades + [trade.value];
      }
      TradesDone(whole, trades, Rest());
      return Ok(trades);
    }

    // ------------------------------------------------------------ observations

    method UnknownScalar() returns (r: Result<UnknownValue, DecodeError>)
      requires Valid()
      modifies this
      ensures Follows(GetUnknown(old(Rest()), utf8), r)
    {
      var tag :- U8();
      match tag
      case 1 =>
        var x :- U64();
        return Ok(UnknownValue.Unsigned(x));
      case 2 =>
        var x :- I64();
        return Ok(UnknownValue.Signed(x));
      case 3 =>
        var x :- I128();
        return Ok(DecimalAtoms(x));
      case 4 =>
        var x :- TextString();
        return Ok(Text(x));
      case 5 =>
        var x :- ByteString();
        return Ok(Raw(x));
      case _ =>
        return Err(InvalidValue);
    }

    /** An observation up to its value, which the caller reads after `Set`. */
    method Head() returns (r: Result<Observation<()>, DecodeError>)
      requires Valid()
      modifies this
      ensures Follows(GetObservation(old(Rest()), GetNothing, utf8), r)
    {
      var tag :- U8();
      match tag
      case 0 =>
        return Ok(NoObservation);
      case 1 =>
        return Ok(Set(()));
      case 2 =>
        return Ok(Clear);
      case 3 =>
        var raw :- UnknownScalar();
        return Ok(Unknown(raw));
      case _ =>
        return Err(InvalidValue);
    }

    method ObservedVolume() returns (r: Result<Observation<Volume>, DecodeError>)
      requires Valid()
      modifies this
      ensures Follows(GetObservation(old(Rest()), GetVolume, utf8), r)
    {
      ObservedCases(Rest(), GetVolume, utf8);
      var head := Head();
      if head.Ok? && head.value.Set? {
        var x :- VolumeValue();
        return Ok(Set(x));
      }
      return Bare(head);
    }

    method ObservedTradeValue() returns (r: Result<Observation<ObservedTrade>, DecodeError>)
      requires Valid()
      modifies this
      ensures Follows(GetObservation(old(Rest()), GetTrade, utf8), r)
    {
      ObservedCases(Rest(), GetTrade, utf8);
      var head := Head();
      if head.Ok? && head.value.Set? {
        var x :- TradeValue();
        return Ok(Set(x));
      }
      return Bare(head);
    }

    method ObservedPrice() returns (r: Result<Observation<i128>, DecodeError>)
      requires Valid()
      modifies this
      ensures Follows(GetObservation(old(Rest()), GetI128, utf8), r)
    {
      ObservedCases(Rest(), GetI128, utf8);
      var head := Head();
      if head.Ok? && head.value.Set? {
        var x :- I128();
        return Ok(Set(x));
      }
      return Bare(head);
    }

    method ObservedQuantity() returns (r: Result<Observation<Quantity>, DecodeError>)
      requires Valid()
      modifies this
      ensures Follows(GetObservation(old(Rest()), GetQuantity, utf8), r)
    {
      ObservedCases(Rest(), GetQuantity, utf8);
      var head := Head();
      if head.Ok? && head.value.Set? {
        var x :- QuantityValue();
        return Ok(Set(x));
      }
      return Bare(head);
    }

    method ObservedBook() returns (r: Result<Observation<Snapshot>, DecodeError>)
      requires Valid()
      modifies this
      ensures Follows(GetObservation(old(Rest()), GetBook, utf8), r)
    {
      ObservedCases(Rest(), GetBook, utf8);
      var head := Head();
      if head.Ok? && head.value.Set? {
        var x :- BookValue();
        return Ok(Set(x));
      }
      return Bare(head);
    }

    method ObservedSignal() returns (r: Result<Observation<MarketSignal>, DecodeError>)
      requires Valid()
      modifies this
      ensures Follows(GetObservation(old(Rest()), GetSignal, utf8), r)
    {
      ObservedCases(Rest(), GetSignal, utf8);
      var head := Head();
      if head.Ok? && head.value.Set? {
        var x :- SignalValue();
        return Ok(Set(x));
      }
      return Bare(head);
    }

    // -------------------------------------------------- auctions and signals

    method EvidenceOf<T>(valueOf: byte -> Result<T, DecodeError>) returns (r: Result<Evidence<T>, DecodeError>)
      requires Valid()
      modifies this
      ensures Follows(GetEvidence(old(Rest()), valueOf), r)
    {
      var tag :- U8();
      match tag
      case 0 =>
        return Ok(NotObserved);
      case 1 =>
        var known :- U8();
        var value :- valueOf(known);
        return Ok(Known(value));
      case 2 =>
        return Ok(NotKnown);
      case _ =>
        return Err(InvalidValue);
    }

    method Round() returns (r: Result<AuctionObservation, DecodeError>)
      requires Valid()
      modifies this
      ensures Follows(GetRound(old(Rest())), r)
    {
      var purpose :- EvidenceOf(PurposeOf);
      var delayed :- EvidenceOf(BoolOf);
      var disposal :- EvidenceOf(BoolOf);
      var direction :- EvidenceOf(DirectionOf);
      var o := AuctionObservation(purpose, delayed, disposal, direction);
      return if ValidObservation(o) then Ok(o) else Err(InvalidValue);
    }

    method SignalValue() returns (r: Result<MarketSignal, DecodeError>)
      requires Valid()
      modifies this
      ensures Follows(GetSignal(old(Rest())), r)
    {
      var tag :- U8();
      if tag == 1 {
        return Ok(Continuous);
      }
      if tag == 4 {
        return Ok(Closed);
      }
      if tag != 2 && tag != 3 {
        return Err(InvalidValue);
      }
      var o :- Round();
      return Ok(if tag == 2 then AuctionCollecting(o) else AuctionUncross(o));
    }

    method AnnotationsValue() returns (r: Result<Annotations, DecodeError>)
      requires Valid()
      modifies this
      ensures Follows(GetAnnotations(old(Rest())), r)
    {
      var tag :- U8();
      if tag == 0 {
        return Ok(NoAnnotations);
      }
      if tag > 2 {
        return Err(InvalidValue);
      }
      var status :- U8();
      var limit :- U8();
      return Ok(if tag == 1 then TwseQuote(status, limit) else TpexQuote(status, limit));
    }

    // ------------------------------------------------------------------ events

    method TailValue(agrees: Observation<Volume> -> bool) returns (r: Result<Tail, DecodeError>)
      requires Valid()
      modifies this
      ensures Follows(GetTail(old(Rest()), utf8, agrees), r)
    {
      var volume :- ObservedVolume();
      var annotations :- AnnotationsValue();
      if !agrees(volume) {
        return Err(InvalidValue);
      }
      var signal :- ObservedSignal();
      return Ok(Tail(volume, annotations, signal));
    }

    method Quote() returns (r: Result<Payload, DecodeError>)
      requires Valid()
      modifies this
      ensures Follows(GetQuote(old(Rest()), utf8), r)
    {
      var book :- BookValue();
      var trade :- ObservedTradeValue();
      var tail :- TailValue(volume => QuoteUnitsAgree(book, trade, volume));
      return Ok(QuoteSnapshot(book, trade, tail.volume, tail.annotations, tail.signal));
    }

    method BookOnly() returns (r: Result<Payload, DecodeError>)
      requires Valid()
      modifies this
      ensures Follows(GetBookOnly(old(Rest()), utf8), r)
    {
      var book :- BookValue();
      var annotations :- AnnotationsValue();
      var signal :- ObservedSignal();
      return Ok(BookSnapshot(book, annotations, signal));
    }

    method BatchValue() returns (r: Result<Payload, DecodeError>)
      requires Valid()
      modifies this
      ensures Follows(GetBatch(old(Rest()), utf8), r)
    {
      var count :- Number(4);
      if count > MaximumCount(|bytes| - offset) {
        return Err(LengthOutOfBounds);
      }
      r := BatchBody(count);
    }

    method BatchBody(count: nat) returns (r: Result<Payload, DecodeError>)
      requires Valid()
      modifies this
      ensures Follows(GetBatchBody(old(Rest()), count, utf8), r)
    {
      var trades :- Trades(count);
      var order :- U8();
      if order > 1 {
        return Err(InvalidValue);
      }
      var tail :- TailValue(volume => BatchUnitsAgree(trades, volume));
      return Ok(TradeBatch(trades, if order == 0 then Unspecified else SourceSequencePreserved, tail.volume,
                           tail.annotations, tail.signal));
    }

    method Indicative() returns (r: Result<Payload, DecodeError>)
      requires Valid()
      modifies this
      ensures Follows(GetIndicative(old(Rest()), utf8), r)
    {
      var observation :- Round();
      var price :- ObservedPrice();
      var quantity :- ObservedQuantity();
      var book :- ObservedBook();
      var volume :- ObservedVolume();
      var annotations :- AnnotationsValue();
      if !AuctionUnitsAgree(quantity, book, volume) {
        return Err(InvalidValue);
      }
      return Ok(IndicativeAuction(Auction(observation, price, quantity, book, volume, annotations)));
    }

    method PayloadValue() returns (r: Result<Payload, DecodeError>)
      requires Valid()
      modifies this
      ensures Follows(GetPayload(old(Rest()), utf8), r)
    {
      var tag :- U8();
      match tag
      case 10 =>
        r := Quote();
      case 20 =>
        r := BookOnly();
      case 30 =>
        r := BatchValue();
      case 40 =>
        r := Indicative();
      case 50 =>
        var t :- TailValue(_ => true);
        return Ok(MarketStatus(t.volume, t.annotations, t.signal));
      case _ =>
        return Err(InvalidValue);
    }

    method Header() returns (r: Result<(), DecodeError>)
      requires Valid()
      modifies this
      ensures Follows(GetHeader(old(Rest())), r)
    {
      var magic :- TakeBytes(4);
      if magic != MAGIC {
        return Err(UnsupportedHeader);
      }
      var version :- Number(2);
      if version != CANONICAL_VERSION {
        return Err(UnsupportedHeader);
      }
      var schema :- Number(2);
      return if schema == SCHEMA_VERSION then Ok(()) else Err(UnsupportedHeader);
    }

    method PlaceValue() returns (r: Result<Place, DecodeError>)
      requires Valid()
      modifies this
      ensures Follows(GetPlace(old(Rest()), utf8), r)
    {
      var tag :- U8();
      var market :- MarketOf(tag);
      var symbol :- Name();
      var date :- I32();
      if !(MIN_EPOCH_DAYS <= date <= MAX_EPOCH_DAYS) {
        return Err(InvalidValue);
      }
      return Ok(Place(market, symbol, date));
    }

    method OriginValue() returns (r: Result<Origin, DecodeError>)
      requires Valid()
      modifies this
      ensures Follows(GetOrigin(old(Rest()), utf8), r)
    {
      var format :- Name();
      var time :- I64();
      if !InstantText.Representable(time) {
        return Err(InvalidValue);
      }
      var tag :- U8();
      if tag > 1 {
        return Err(InvalidValue);
      }
      if tag == 0 {
        return Ok(Origin(format, time, None));
      }
      var sequence :- U64();
      return Ok(Origin(format, time, Some(sequence)));
    }

    method Envelope() returns (r: Result<Event, DecodeError>)
      requires Valid()
      modifies this
      ensures r == DecodeEnvelope(old(Rest()), utf8)
    {
      var place :- PlaceValue();
      var origin :- OriginValue();
      r := Contents(place, origin);
    }

    method Contents(place: Place, origin: Origin) returns (r: Result<Event, DecodeError>)
      requires Valid()
      modifies this
      ensures r == DecodeContents(old(Rest()), place, origin, utf8)
    {
      var payload :- PayloadValue();
      if offset != |bytes| {
        return Err(TrailingBytes);
      }
      return Ok(Event(InstrumentId(place.market, place.symbol), place.tradingDate, origin.sourceFormat, origin.matchTime,
                      origin.sourceSequence, payload));
    }
  }

  /** Reads nothing: stands for the value in the head of an observation. */
  function GetNothing(bytes: Bytes): Decoded<()> {
    Ok(Parsed((), bytes))
  }

  /** The result for a head without a value. */
  function Bare<T>(head: Result<Observation<()>, DecodeError>): (r: Result<Observation<T>, DecodeError>)
    requires head.Ok? ==> !head.value.Set?
    ensures r.Ok? <==> head.Ok?
  {
    match head
    case Err(e) => Err(e)
    case Ok(NoObservation) => Ok(NoObservation)
    case Ok(Clear) => Ok(Clear)
    case Ok(Unknown(raw)) => Ok(Unknown(raw))
    case Ok(Set(_)) => Ok(NoObservation)
  }

  function Valued<T>(decoded: Decoded<T>): Decoded<Observation<T>> {
    match decoded
    case Err(e) => Err(e)
    case Ok(parsed) => Ok(Parsed(Set(parsed.value), parsed.rest))
  }

  /** An observation is its head, and after `Set` its value. */
  lemma {:induction false} ObservedCases<T>(bytes: Bytes, get: Bytes -> Decoded<T>, utf8: Bytes -> bool)
    ensures var head := GetObservation(bytes, GetNothing, utf8);
      && (head.Ok? && head.value.value.Set? ==> GetObservation(bytes, get, utf8) == Valued(get(head.value.rest)))
      && (head.Ok? && !head.value.value.Set? ==>
            GetObservation(bytes, get, utf8) == Ok(Parsed(Bare<T>(Ok(head.value.value)).value, head.value.rest)))
      && (head.Err? ==> GetObservation(bytes, get, utf8) == Err(head.error))
  {
  }

  /** Decodes a whole frame; nothing may follow it. */
  method FromCanonicalBytes(bytes: Bytes, utf8: Bytes -> bool) returns (r: Result<Event, DecodeError>)
    ensures r == Decode(bytes, utf8)
  {
    var parser := new CanonicalParser(bytes, utf8);
    var _ :- parser.Header();
    r := parser.Envelope();
  }

  ghost function PrependOne<T>(x: T, decoded: Decoded<seq<T>>): Decoded<seq<T>> {
    match decoded
    case Ok(parsed) => Ok(Parsed([x] + parsed.value, parsed.rest))
    case Err(_) => decoded
  }

  /** What was read already, and then the rest. */
  ghost function PrependTo<T>(done: seq<T>, decoded: Decoded<seq<T>>): Decoded<seq<T>>
    decreases |done|
  {
    if done == [] then decoded else PrependTo(done[..|done| - 1], PrependOne(done[|done| - 1], decoded))
  }

  lemma {:induction false} PrependMeaning<T>(done: seq<T>, decoded: Decoded<seq<T>>)
    ensures PrependTo(done, decoded) == match decoded
      case Ok(parsed) => Ok(Parsed(done + parsed.value, parsed.rest))
      case Err(_) => decoded
    decreases |done|
  {
    if done == [] {
      assert decoded.Ok? ==> [] + decoded.value.value == decoded.value.value;
    } else {
      var init, last := done[..|done| - 1], done[|done| - 1];
      PrependMeaning(init, PrependOne(last, decoded));
      assert decoded.Ok? ==> init + ([last] + decoded.value.value) == done + decoded.value.value;
    }
  }

  lemma {:induction false} PrependAll<T>(done: seq<T>, rest: Bytes)
    ensures PrependTo(done, Ok(Parsed([], rest))) == Ok(Parsed(done, rest))
  {
    PrependMeaning(done, Ok(Parsed([], rest)));
    assert done + [] == done;
  }

  lemma {:induction false} PrependNext<T>(done: seq<T>, x: T, decoded: Decoded<seq<T>>)
    ensures PrependTo(done, PrependOne(x, decoded)) == PrependTo(done + [x], decoded)
  {
    assert (done + [x])[..|done|] == done;
  }

  lemma {:induction false} SlotsStep(bytes: Bytes, count: nat)
    requires count > 0
    ensures GetSlots(bytes, count) == match GetOptional(bytes, GetLevel)
      case Err(e) => Err(e)
      case Ok(slot) => PrependOne(slot.value, GetSlots(slot.rest, count - 1))
  {
  }

  /** Some trades were read, and `count` are to be read from `bytes`. */
  ghost predicate TradesRead(whole: Decoded<seq<ObservedTrade>>, done: seq<ObservedTrade>, bytes: Bytes, count: nat) {
    whole == PrependTo(done, GetTrades(bytes, count))
  }

  lemma {:induction false} TradesNext(whole: Decoded<seq<ObservedTrade>>, done: seq<ObservedTrade>, bytes: Bytes, count: nat)
    requires count > 0 && TradesRead(whole, done, bytes, count)
    ensures match GetTrade(bytes)
      case Err(e) => whole == Err(e)
      case Ok(trade) => TradesRead(whole, done + [trade.value], trade.rest, count - 1)
  {
    match GetTrade(bytes)
    case Err(e) => PrependMeaning<ObservedTrade>(done, Err(e));
    case Ok(trade) => PrependNext(done, trade.value, GetTrades(trade.rest, count - 1));
  }

  lemma {:induction false} TradesDone(whole: Decoded<seq<ObservedTrade>>, done: seq<ObservedTrade>, bytes: Bytes)
    requires TradesRead(whole, done, bytes, 0)
    ensures whole == Ok(Parsed(done, bytes))
  {
    PrependAll(done, bytes);
  }
}
