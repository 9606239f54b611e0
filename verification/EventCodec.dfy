/** Canonical event frames: one encoding for each valid event, and no other accepted bytes. */
module EventCodec {
  import opened Wrappers
  import opened MachineIntegers
  import opened MarketTypes
  import opened Book
  import opened Events
  import opened BigEndian
  import opened FieldCodec

  // -------------------------------------------------------------------- books

  function PutOptional<T>(o: Option<T>, put: (T, Bytes) -> Bytes, rest: Bytes): Bytes {
    match o
    case None => PutU8(0, rest)
    case Some(x) => PutU8(1, put(x, rest))
  }

  function GetOptional<T>(bytes: Bytes, get: Bytes -> Decoded<T>): Decoded<Option<T>> {
    var tag :- GetU8(bytes);
    if tag.value == 0 then Ok(Parsed(None, tag.rest))
    else if tag.value == 1 then
      var x :- get(tag.rest);
      Ok(Parsed(Some(x.value), x.rest))
    else Err(InvalidValue)
  }

  lemma {:induction false} OptionalRoundTrip<T>(o: Option<T>, put: (T, Bytes) -> Bytes, get: Bytes -> Decoded<T>, rest: Bytes)
    requires o.Some? ==> get(put(o.value, rest)) == Ok(Parsed(o.value, rest))
    ensures GetOptional(PutOptional(o, put, rest), get) == Ok(Parsed(o, rest))
  {
  }

  /** Whatever was read is what would have been written. */
  ghost predicate WrittenBack<T>(bytes: Bytes, put: (T, Bytes) -> Bytes, get: Bytes -> Decoded<T>) {
    get(bytes).Ok? ==> bytes == put(get(bytes).value.value, get(bytes).value.rest)
  }

  lemma {:induction false} OptionalCanonical<T>(bytes: Bytes, put: (T, Bytes) -> Bytes, get: Bytes -> Decoded<T>)
    requires bytes != [] ==> WrittenBack(bytes[1..], put, get)
    requires GetOptional(bytes, get).Ok?
    ensures bytes == PutOptional(GetOptional(bytes, get).value.value, put, GetOptional(bytes, get).value.rest)
  {
  }

  function PutLevel(level: BookLevel, rest: Bytes): Bytes {
    PutI128(level.price, PutQuantity(level.displayed, rest))
  }

  function GetLevel(bytes: Bytes): Decoded<BookLevel> {
    var price :- GetI128(bytes);
    var displayed :- GetQuantity(price.rest);
    Ok(Parsed(BookLevel(price.value, displayed.value), displayed.rest))
  }

  lemma {:induction false} LevelRoundTrip(level: BookLevel, rest: Bytes)
    ensures GetLevel(PutLevel(level, rest)) == Ok(Parsed(level, rest))
  {
    IntegersRoundTrip(0, level.price, 0, 0, 0, PutQuantity(level.displayed, rest));
    QuantityRoundTrip(level.displayed, rest);
  }

  lemma {:induction false} LevelCanonical(bytes: Bytes)
    ensures WrittenBack(bytes, PutLevel, GetLevel)
  {
    if GetLevel(bytes).Ok? {
      I128Canonical(bytes);
      QuantityCanonical(GetI128(bytes).value.rest);
    }
  }

  function PutSlots(slots: seq<Option<BookLevel>>, rest: Bytes): Bytes {
    if slots == [] then rest else PutOptional(slots[0], PutLevel, PutSlots(slots[1..], rest))
  }

  function GetSlots(bytes: Bytes, count: nat): (r: Decoded<seq<Option<BookLevel>>>)
    ensures r.Ok? ==> |r.value.value| == count
    decreases count
  {
    if count == 0 then Ok(Parsed([], bytes)) else
    var slot :- GetOptional(bytes, GetLevel);
    var others :- GetSlots(slot.rest, count - 1);
    Ok(Parsed([slot.value] + others.value, others.rest))
  }

  lemma {:induction false} SlotRoundTrip(slot: Option<BookLevel>, rest: Bytes)
    ensures GetOptional(PutOptional(slot, PutLevel, rest), GetLevel) == Ok(Parsed(slot, rest))
  {
    if slot.Some? {
      LevelRoundTrip(slot.value, rest);
    }
    OptionalRoundTrip(slot, PutLevel, GetLevel, rest);
  }

  lemma {:induction false} SlotsRoundTrip(slots: seq<Option<BookLevel>>, rest: Bytes)
    ensures GetSlots(PutSlots(slots, rest), |slots|) == Ok(Parsed(slots, rest))
  {
    if slots != [] {
      SlotsRoundTrip(slots[1..], rest);
      SlotRoundTrip(slots[0], PutSlots(slots[1..], rest));
      assert [slots[0]] + slots[1..] == slots;
    }
  }

  lemma {:induction false} SlotsCanonical(bytes: Bytes, count: nat)
    requires GetSlots(bytes, count).Ok?
    ensures bytes == PutSlots(GetSlots(bytes, count).value.value, GetSlots(bytes, count).value.rest)
    decreases count
  {
    if count > 0 {
      if bytes != [] {
        LevelCanonical(bytes[1..]);
      }
      OptionalCanonical(bytes, PutLevel, GetLevel);
      SlotsCanonical(GetOptional(bytes, GetLevel).value.rest, count - 1);
    }
  }

  function PutSide(side: BookSide, rest: Bytes): Bytes {
    PutOptional(side.marketOrders, PutQuantity, PutSlots(side.slots, rest))
  }

  function GetSide(bytes: Bytes, kind: SideKind): Decoded<BookSide> {
    var marketOrders :- GetOptional(bytes, GetQuantity);
    var slots :- GetSlots(marketOrders.rest, BOOK_DEPTH);
    var side: BookSide := BookSide(kind, marketOrders.value, slots.value);
    if ValidSide(side) then Ok(Parsed(side, slots.rest)) else Err(InvalidValue)
  }

  lemma {:induction false} SideRoundTrip(side: BookSide, rest: Bytes)
    requires ValidSide(side)
    ensures GetSide(PutSide(side, rest), side.kind) == Ok(Parsed(side, rest))
  {
    if side.marketOrders.Some? {
      QuantityRoundTrip(side.marketOrders.value, PutSlots(side.slots, rest));
    }
    OptionalRoundTrip(side.marketOrders, PutQuantity, GetQuantity, PutSlots(side.slots, rest));
    SlotsRoundTrip(side.slots, rest);
  }

  lemma {:induction false} SideCanonical(bytes: Bytes, kind: SideKind)
    requires GetSide(bytes, kind).Ok?
    ensures var side := GetSide(bytes, kind).value;
      ValidSide(side.value) && side.value.kind == kind && bytes == PutSide(side.value, side.rest)
  {
    if bytes != [] && GetQuantity(bytes[1..]).Ok? {
      QuantityCanonical(bytes[1..]);
    }
    OptionalCanonical(bytes, PutQuantity, GetQuantity);
    SlotsCanonical(GetOptional(bytes, GetQuantity).value.rest, BOOK_DEPTH);
  }

  function PutBook(book: Snapshot, rest: Bytes): Bytes {
    PutSide(book.bids, PutSide(book.asks, rest))
  }

  function GetBook(bytes: Bytes): Decoded<Snapshot> {
    var bids :- GetSide(bytes, Bid);
    var asks :- GetSide(bids.rest, Ask);
    match NewSnapshot(bids.value, asks.value)
    case Ok(book) => Ok(Parsed(book, asks.rest))
    case Err(_) => Err(InvalidValue)
  }

  lemma {:induction false} BookRoundTrip(book: Snapshot, rest: Bytes)
    requires ValidBook(book)
    ensures GetBook(PutBook(book, rest)) == Ok(Parsed(book, rest))
  {
    SideRoundTrip(book.bids, PutSide(book.asks, rest));
    SideRoundTrip(book.asks, rest);
  }

  lemma {:induction false} BookCanonical(bytes: Bytes)
    ensures WrittenBack(bytes, PutBook, GetBook)
    ensures GetBook(bytes).Ok? ==> ValidBook(GetBook(bytes).value.value)
  {
    if GetBook(bytes).Ok? {
      SideCanonical(bytes, Bid);
      SideCanonical(GetSide(bytes, Bid).value.rest, Ask);
    }
  }

  // --------------------------------------------------------------- observations

  function PutUnknown(u: UnknownValue, rest: Bytes): Bytes
    requires UnknownFits(u)
  {
    match u
    case Unsigned(x) => PutU8(1, PutU64(x, rest))
    case Signed(x) => PutU8(2, PutI64(x, rest))
    case DecimalAtoms(x) => PutU8(3, PutI128(x, rest))
    case Text(x) => PutU8(4, PutBytes(x, rest))
    case Raw(x) => PutU8(5, PutBytes(x, rest))
  }

  /** Byte values have a four-byte length. */
  predicate UnknownFits(u: UnknownValue) {
    (u.Text? ==> |u.text| <= U32_MAX) && (u.Raw? ==> |u.bytes| <= U32_MAX)
  }

  predicate ValidUnknown(u: UnknownValue, utf8: Bytes -> bool) {
    u.Text? ==> utf8(u.text)
  }

  function GetUnknown(bytes: Bytes, utf8: Bytes -> bool): Decoded<UnknownValue> {
    var tag :- GetU8(bytes);
    if tag.value == 1 then var x :- GetU64(tag.rest); Ok(Parsed(UnknownValue.Unsigned(x.value), x.rest))
    else if tag.value == 2 then var x :- GetI64(tag.rest); Ok(Parsed(UnknownValue.Signed(x.value), x.rest))
    else if tag.value == 3 then var x :- GetI128(tag.rest); Ok(Parsed(DecimalAtoms(x.value), x.rest))
    else if tag.value == 4 then var x :- GetText(tag.rest, utf8); Ok(Parsed(Text(x.value), x.rest))
    else if tag.value == 5 then var x :- GetBytes(tag.rest); Ok(Parsed(Raw(x.value), x.rest))
    else Err(InvalidValue)
  }

  lemma {:induction false} UnknownRoundTrip(u: UnknownValue, utf8: Bytes -> bool, rest: Bytes)
    requires UnknownFits(u) && ValidUnknown(u, utf8)
    ensures GetUnknown(PutUnknown(u, rest), utf8) == Ok(Parsed(u, rest))
  {
    match u
    case Unsigned(x) => IntegersRoundTrip(x, 0, 0, 0, 0, rest);
    case Signed(x) => IntegersRoundTrip(0, 0, x, 0, 0, rest);
    case DecimalAtoms(x) => IntegersRoundTrip(0, x, 0, 0, 0, rest);
    case Text(x) => BytesRoundTrip(x, rest);
    case Raw(x) => BytesRoundTrip(x, rest);
  }

  lemma {:induction false} UnknownCanonical(bytes: Bytes, utf8: Bytes -> bool)
    requires GetUnknown(bytes, utf8).Ok?
    ensures var u := GetUnknown(bytes, utf8).value;
      UnknownFits(u.value) && ValidUnknown(u.value, utf8) && bytes == PutUnknown(u.value, u.rest)
  {
    var tail := bytes[1..];
    if bytes[0] == 1 {
      U64Canonical(tail);
    } else if bytes[0] == 2 {
      I64Canonical(tail);
    } else if bytes[0] == 3 {
      I128Canonical(tail);
    } else {
      BytesCanonical(tail);
    }
  }

  predicate Fits<T>(o: Observation<T>) {
    o.Unknown? ==> UnknownFits(o.raw)
  }

  predicate ValidText<T>(o: Observation<T>, utf8: Bytes -> bool) {
    o.Unknown? ==> ValidUnknown(o.raw, utf8)
  }

  function PutObservation<T>(o: Observation<T>, put: (T, Bytes) -> Bytes, rest: Bytes): Bytes
    requires Fits(o)
  {
    match o
    case NoObservation => PutU8(0, rest)
    case Set(x) => PutU8(1, put(x, rest))
    case Clear => PutU8(2, rest)
    case Unknown(raw) => PutU8(3, PutUnknown(raw, rest))
  }

  function GetObservation<T>(bytes: Bytes, get: Bytes -> Decoded<T>, utf8: Bytes -> bool): Decoded<Observation<T>> {
    var tag :- GetU8(bytes);
    if tag.value == 0 then Ok(Parsed(NoObservation, tag.rest))
    else if tag.value == 1 then var x :- get(tag.rest); Ok(Parsed(Set(x.value), x.rest))
    else if tag.value == 2 then Ok(Parsed(Clear, tag.rest))
    else if tag.value == 3 then var raw :- GetUnknown(tag.rest, utf8); Ok(Parsed(Unknown(raw.value), raw.rest))
    else Err(InvalidValue)
  }

  lemma {:induction false} ObservationRoundTrip<T>(o: Observation<T>, put: (T, Bytes) -> Bytes, get: Bytes -> Decoded<T>, utf8: Bytes -> bool, rest: Bytes)
    requires Fits(o) && ValidText(o, utf8)
    requires o.Set? ==> get(put(o.value, rest)) == Ok(Parsed(o.value, rest))
    ensures GetObservation(PutObservation(o, put, rest), get, utf8) == Ok(Parsed(o, rest))
  {
    if o.Unknown? {
      UnknownRoundTrip(o.raw, utf8, rest);
    }
  }

  lemma {:induction false} ObservationCanonical<T>(bytes: Bytes, put: (T, Bytes) -> Bytes, get: Bytes -> Decoded<T>, utf8: Bytes -> bool)
    requires bytes != [] ==> WrittenBack(bytes[1..], put, get)
    requires GetObservation(bytes, get, utf8).Ok?
    ensures var o := GetObservation(bytes, get, utf8).value;
      && Fits(o.value) && ValidText(o.value, utf8) && bytes == PutObservation(o.value, put, o.rest)
      && (o.value.Set? ==> bytes != [] && get(bytes[1..]).Ok? && o.value.value == get(bytes[1..]).value.value)
  {
    if bytes[0] == 3 {
      UnknownCanonical(bytes[1..], utf8);
    }
  }

  // ------------------------------------------------------- signals, annotations

  function PurposeTag(p: AuctionPurpose): byte {
    match p
    case Opening => 1
    case Closing => 2
    case Periodic => 3
    case VolatilityInterruption => 4
  }

  function PurposeOf(tag: byte): Result<AuctionPurpose, DecodeError> {
    if tag == 1 then Ok(Opening) else if tag == 2 then Ok(Closing) else if tag == 3 then Ok(Periodic)
    else if tag == 4 then Ok(VolatilityInterruption) else Err(InvalidValue)
  }

  function BoolTag(b: bool): byte {
    if b then 1 else 0
  }

  function BoolOf(tag: byte): Result<bool, DecodeError> {
    if tag == 0 then Ok(false) else if tag == 1 then Ok(true) else Err(InvalidValue)
  }

  function DirectionTag(d: Direction): byte {
    if d == Down then 1 else 2
  }

  function DirectionOf(tag: byte): Result<Direction, DecodeError> {
    if tag == 1 then Ok(Down) else if tag == 2 then Ok(Up) else Err(InvalidValue)
  }

  function PutEvidence<T>(e: Evidence<T>, tagOf: T -> byte, rest: Bytes): Bytes {
    match e
    case NotObserved => PutU8(0, rest)
    case Known(x) => PutU8(1, PutU8(tagOf(x), rest))
    case NotKnown => PutU8(2, rest)
  }

  function GetEvidence<T>(bytes: Bytes, valueOf: byte -> Result<T, DecodeError>): Decoded<Evidence<T>> {
    var tag :- GetU8(bytes);
    if tag.value == 0 then Ok(Parsed(NotObserved, tag.rest))
    else if tag.value == 1 then
      var known :- GetU8(tag.rest);
      var value :- valueOf(known.value);
      Ok(Parsed(Known(value), known.rest))
    else if tag.value == 2 then Ok(Parsed(NotKnown, tag.rest))
    else Err(InvalidValue)
  }

  lemma {:induction false} EvidenceRoundTrip<T>(e: Evidence<T>, tagOf: T -> byte, valueOf: byte -> Result<T, DecodeError>, rest: Bytes)
    requires e.Known? ==> valueOf(tagOf(e.value)) == Ok(e.value)
    ensures GetEvidence(PutEvidence(e, tagOf, rest), valueOf) == Ok(Parsed(e, rest))
  {
  }

  lemma {:induction false} EvidenceCanonical<T>(bytes: Bytes, tagOf: T -> byte, valueOf: byte -> Result<T, DecodeError>)
    requires |bytes| > 1 && valueOf(bytes[1]).Ok? ==> tagOf(valueOf(bytes[1]).value) == bytes[1]
    requires GetEvidence(bytes, valueOf).Ok?
    ensures bytes == PutEvidence(GetEvidence(bytes, valueOf).value.value, tagOf, GetEvidence(bytes, valueOf).value.rest)
  {
    if |bytes| > 1 {
      assert bytes[1..][1..] == bytes[2..] && bytes[1..][0] == bytes[1];
      assert bytes == [bytes[0]] + ([bytes[1]] + bytes[2..]);
    }
  }

  function PutRound(o: AuctionObservation, rest: Bytes): Bytes {
    PutEvidence(o.purpose, PurposeTag, PutEvidence(o.delayed, BoolTag, PutEvidence(o.disposal, BoolTag,
      PutEvidence(o.direction, DirectionTag, rest))))
  }

  function GetRound(bytes: Bytes): Decoded<AuctionObservation> {
    var purpose :- GetEvidence(bytes, PurposeOf);
    var delayed :- GetEvidence(purpose.rest, BoolOf);
    var disposal :- GetEvidence(delayed.rest, BoolOf);
    var direction :- GetEvidence(disposal.rest, DirectionOf);
    var o := AuctionObservation(purpose.value, delayed.value, disposal.value, direction.value);
    if ValidObservation(o) then Ok(Parsed(o, direction.rest)) else Err(InvalidValue)
  }

  lemma {:induction false} RoundRoundTrip(o: AuctionObservation, rest: Bytes)
    requires ValidObservation(o)
    ensures GetRound(PutRound(o, rest)) == Ok(Parsed(o, rest))
  {
    var direction := PutEvidence(o.direction, DirectionTag, rest);
    var disposal := PutEvidence(o.disposal, BoolTag, direction);
    var delayed := PutEvidence(o.delayed, BoolTag, disposal);
    EvidenceRoundTrip(o.direction, DirectionTag, DirectionOf, rest);
    EvidenceRoundTrip(o.disposal, BoolTag, BoolOf, direction);
    EvidenceRoundTrip(o.delayed, BoolTag, BoolOf, disposal);
    EvidenceRoundTrip(o.purpose, PurposeTag, PurposeOf, delayed);
  }

  lemma {:induction false} RoundCanonical(bytes: Bytes)
    requires GetRound(bytes).Ok?
    ensures var o := GetRound(bytes).value;
      ValidObservation(o.value) && bytes == PutRound(o.value, o.rest)
  {
    EvidenceCanonical(bytes, PurposeTag, PurposeOf);
    var purpose := GetEvidence(bytes, PurposeOf).value;
    EvidenceCanonical(purpose.rest, BoolTag, BoolOf);
    var delayed := GetEvidence(purpose.rest, BoolOf).value;
    EvidenceCanonical(delayed.rest, BoolTag, BoolOf);
    var disposal := GetEvidence(delayed.rest, BoolOf).value;
    EvidenceCanonical(disposal.rest, DirectionTag, DirectionOf);
  }

  predicate ValidSignal(signal: MarketSignal) {
    signal.AuctionCollecting? || signal.AuctionUncross? ==> ValidObservation(signal.observation)
  }

  function PutSignal(signal: MarketSignal, rest: Bytes): Bytes {
    match signal
    case Continuous => PutU8(1, rest)
    case AuctionCollecting(o) => PutU8(2, PutRound(o, rest))
    case AuctionUncross(o) => PutU8(3, PutRound(o, rest))
    case Closed => PutU8(4, rest)
  }

  function GetSignal(bytes: Bytes): Decoded<MarketSignal> {
    var tag :- GetU8(bytes);
    if tag.value == 2 then var o :- GetRound(tag.rest); Ok(Parsed(AuctionCollecting(o.value), o.rest))
    else if tag.value == 3 then var o :- GetRound(tag.rest); Ok(Parsed(AuctionUncross(o.value), o.rest))
    else if tag.value == 1 then Ok(Parsed(Continuous, tag.rest))
    else if tag.value == 4 then Ok(Parsed(Closed, tag.rest))
    else Err(InvalidValue)
  }

  lemma {:induction false} SignalRoundTrip(signal: MarketSignal, rest: Bytes)
    requires ValidSignal(signal)
    ensures GetSignal(PutSignal(signal, rest)) == Ok(Parsed(signal, rest))
  {
    if signal.AuctionCollecting? || signal.AuctionUncross? {
      RoundRoundTrip(signal.observation, rest);
    }
  }

  lemma {:induction false} SignalCanonical(bytes: Bytes)
    ensures WrittenBack(bytes, PutSignal, GetSignal)
    ensures GetSignal(bytes).Ok? ==> ValidSignal(GetSignal(bytes).value.value)
  {
    if GetSignal(bytes).Ok? && (bytes[0] == 2 || bytes[0] == 3) {
      RoundCanonical(bytes[1..]);
    }
  }

  function PutAnnotations(a: Annotations, rest: Bytes): Bytes {
    match a
    case NoAnnotations => PutU8(0, rest)
    case TwseQuote(status, limit) => PutU8(1, PutU8(status, PutU8(limit, rest)))
    case TpexQuote(status, limit) => PutU8(2, PutU8(status, PutU8(limit, rest)))
  }

  function GetAnnotations(bytes: Bytes): Decoded<Annotations> {
    var tag :- GetU8(bytes);
    if tag.value == 0 then Ok(Parsed(NoAnnotations, tag.rest))
    else if tag.value > 2 then Err(InvalidValue)
    else
      var status :- GetU8(tag.rest);
      var limit :- GetU8(status.rest);
      Ok(Parsed(if tag.value == 1 then TwseQuote(status.value, limit.value) else TpexQuote(status.value, limit.value), limit.rest))
  }

  lemma {:induction false} AnnotationsRoundTrip(a: Annotations, rest: Bytes)
    ensures GetAnnotations(PutAnnotations(a, rest)) == Ok(Parsed(a, rest))
  {
  }

  lemma {:induction false} AnnotationsCanonical(bytes: Bytes)
    requires GetAnnotations(bytes).Ok?
    ensures bytes == PutAnnotations(GetAnnotations(bytes).value.value, GetAnnotations(bytes).value.rest)
  {
    if bytes[0] != 0 {
      var tail := bytes[1..];
      assert tail == PutU8(tail[0], PutU8(tail[1..][0], tail[1..][1..]));
    }
  }
}
