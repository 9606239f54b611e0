/**
 Canonical encoding of event fields. `PutX(x, rest)` is the encoding of `x` followed by `rest`; `GetX`
 takes one `x` off the front. Each pair is inverse in both directions, whatever follows.
 */
module FieldCodec {
  import opened Wrappers
  import opened MachineIntegers
  import opened MarketTypes
  import opened Book
  import opened Events
  import opened BigEndian

  datatype DecodeError = Truncated | LengthOutOfBounds | UnsupportedHeader | InvalidUtf8 | InvalidValue | TrailingBytes

  datatype Parsed<+T> = Parsed(value: T, rest: Bytes)

  type Decoded<+T> = Result<Parsed<T>, DecodeError>

  // ----------------------------------------------------------------- integers

  function Take(bytes: Bytes, length: nat): Decoded<Bytes> {
    if |bytes| < length then Err(Truncated) else Ok(Parsed(bytes[..length], bytes[length..]))
  }

  function GetNat(bytes: Bytes, width: nat): Decoded<nat> {
    var taken :- Take(bytes, width);
    Ok(Parsed(NatOf(taken.value), taken.rest))
  }

  lemma {:induction false} NatRoundTrip(n: nat, width: nat, rest: Bytes)
    requires n < Pow256(width)
    ensures GetNat(PutNat(n, width, rest), width) == Ok(Parsed(n, rest))
  {
    PutNatShape(n, width, rest);
  }

  lemma {:induction false} NatCanonical(bytes: Bytes, width: nat)
    requires GetNat(bytes, width).Ok?
    ensures var n := GetNat(bytes, width).value;
      n.value < Pow256(width) && bytes == PutNat(n.value, width, n.rest)
  {
    NatOfPuts(bytes[..width], bytes[width..]);
    assert bytes[..width] + bytes[width..] == bytes;
  }

  function PutU8(x: byte, rest: Bytes): Bytes {
    [x] + rest
  }

  function GetU8(bytes: Bytes): Decoded<byte> {
    if bytes == [] then Err(Truncated) else Ok(Parsed(bytes[0], bytes[1..]))
  }

  function PutU64(x: u64, rest: Bytes): Bytes {
    Widths(); PutNat(x, 8, rest)
  }

  function GetU64(bytes: Bytes): (r: Decoded<u64>) {
    var n :- GetNat(bytes, 8);
    NatOfBounds(bytes[..8]); Widths();
    Ok(Parsed(n.value, n.rest))
  }

  function PutU32(x: nat, rest: Bytes): Bytes
    requires x <= U32_MAX
  {
    Widths(); PutNat(x, 4, rest)
  }

  function GetU32(bytes: Bytes): Decoded<nat> {
    GetNat(bytes, 4)
  }

  function PutI128(x: i128, rest: Bytes): Bytes {
    Widths(); PutNat(BigEndian.Unsigned(x, 16), 16, rest)
  }

  function GetI128(bytes: Bytes): Decoded<i128> {
    var n :- GetNat(bytes, 16);
    NatOfBounds(bytes[..16]); Widths();
    Ok(Parsed(BigEndian.Signed(n.value, 16), n.rest))
  }

  function PutI64(x: i64, rest: Bytes): Bytes {
    Widths(); PutNat(BigEndian.Unsigned(x, 8), 8, rest)
  }

  function GetI64(bytes: Bytes): Decoded<i64> {
    var n :- GetNat(bytes, 8);
    NatOfBounds(bytes[..8]); Widths();
    Ok(Parsed(BigEndian.Signed(n.value, 8), n.rest))
  }

  function PutI32(x: i32, rest: Bytes): Bytes {
    Widths(); PutNat(BigEndian.Unsigned(x, 4), 4, rest)
  }

  function GetI32(bytes: Bytes): Decoded<i32> {
    var n :- GetNat(bytes, 4);
    NatOfBounds(bytes[..4]); Widths();
    Ok(Parsed(BigEndian.Signed(n.value, 4), n.rest))
  }

  lemma {:induction false} IntegersRoundTrip(u: u64, l: i128, i: i64, s: i32, n: nat, rest: Bytes)
    requires n <= U32_MAX
    ensures GetU64(PutU64(u, rest)) == Ok(Parsed(u, rest))
    ensures GetI128(PutI128(l, rest)) == Ok(Parsed(l, rest))
    ensures GetI64(PutI64(i, rest)) == Ok(Parsed(i, rest))
    ensures GetI32(PutI32(s, rest)) == Ok(Parsed(s, rest))
    ensures GetU32(PutU32(n, rest)) == Ok(Parsed(n, rest))
  {
    Widths();
    NatRoundTrip(u, 8, rest);
    NatRoundTrip(BigEndian.Unsigned(l, 16), 16, rest);
    NatRoundTrip(BigEndian.Unsigned(i, 8), 8, rest);
    NatRoundTrip(BigEndian.Unsigned(s, 4), 4, rest);
    NatRoundTrip(n, 4, rest);
  }

  lemma {:induction false} U64Canonical(bytes: Bytes)
    requires GetU64(bytes).Ok?
    ensures bytes == PutU64(GetU64(bytes).value.value, GetU64(bytes).value.rest)
  {
    NatCanonical(bytes, 8);
  }

  lemma {:induction false} U32Canonical(bytes: Bytes)
    requires GetU32(bytes).Ok?
    ensures GetU32(bytes).value.value <= U32_MAX
    ensures bytes == PutU32(GetU32(bytes).value.value, GetU32(bytes).value.rest)
  {
    Widths();
    NatCanonical(bytes, 4);
  }

  lemma {:induction false} I128Canonical(bytes: Bytes)
    requires GetI128(bytes).Ok?
    ensures bytes == PutI128(GetI128(bytes).value.value, GetI128(bytes).value.rest)
  {
    NatCanonical(bytes, 16);
  }

  lemma {:induction false} I64Canonical(bytes: Bytes)
    requires GetI64(bytes).Ok?
    ensures bytes == PutI64(GetI64(bytes).value.value, GetI64(bytes).value.rest)
  {
    NatCanonical(bytes, 8);
  }

  lemma {:induction false} I32Canonical(bytes: Bytes)
    requires GetI32(bytes).Ok?
    ensures bytes == PutI32(GetI32(bytes).value.value, GetI32(bytes).value.rest)
  {
    NatCanonical(bytes, 4);
  }

  // -------------------------------------------------------------- byte strings

  function PutBytes(value: Bytes, rest: Bytes): Bytes
    requires |value| <= U32_MAX
  {
    PutU32(|value|, value + rest)
  }

  function GetBytes(bytes: Bytes): Decoded<Bytes> {
    var length :- GetU32(bytes);
    Take(length.rest, length.value)
  }

  function GetText(bytes: Bytes, utf8: Bytes -> bool): Decoded<Bytes> {
    var text :- GetBytes(bytes);
    if utf8(text.value) then Ok(text) else Err(InvalidUtf8)
  }

  lemma {:induction false} BytesRoundTrip(value: Bytes, rest: Bytes)
    requires |value| <= U32_MAX
    ensures GetBytes(PutBytes(value, rest)) == Ok(Parsed(value, rest))
  {
    IntegersRoundTrip(0, 0, 0, 0, |value|, value + rest);
    assert (value + rest)[..|value|] == value && (value + rest)[|value|..] == rest;
  }

  lemma {:induction false} BytesCanonical(bytes: Bytes)
    requires GetBytes(bytes).Ok?
    ensures var value := GetBytes(bytes).value;
      |value.value| <= U32_MAX && bytes == PutBytes(value.value, value.rest)
  {
    U32Canonical(bytes);
    var length := GetU32(bytes).value;
    assert length.rest[..length.value] + length.rest[length.value..] == length.rest;
  }

  // ------------------------------------------------------- quantities and prices

  function UnitTag(unit: QuantityUnit): byte {
    match unit
    case SourceUnit => 0
    case Share => 1
    case TradingUnit => 2
    case Contract => 3
  }

  function UnitOf(tag: byte): Result<QuantityUnit, DecodeError> {
    if tag == 0 then Ok(SourceUnit) else if tag == 1 then Ok(Share) else if tag == 2 then Ok(TradingUnit)
    else if tag == 3 then Ok(Contract) else Err(InvalidValue)
  }

  function PutVolume(v: Volume, rest: Bytes): Bytes {
    PutU8(UnitTag(v.unit), PutU64(v.value, rest))
  }

  function GetVolume(bytes: Bytes): Decoded<Volume> {
    var tag :- GetU8(bytes);
    var unit :- UnitOf(tag.value);
    var value :- GetU64(tag.rest);
    Ok(Parsed(Volume(value.value, unit), value.rest))
  }

  function PutQuantity(q: Quantity, rest: Bytes): Bytes {
    PutVolume(Volume(q.value, q.unit), rest)
  }

  function GetQuantity(bytes: Bytes): Decoded<Quantity> {
    var volume :- GetVolume(bytes);
    if volume.value.value == 0 then Err(InvalidValue)
    else Ok(Parsed(Quantity(volume.value.value, volume.value.unit), volume.rest))
  }

  lemma {:induction false} VolumeRoundTrip(v: Volume, rest: Bytes)
    ensures GetVolume(PutVolume(v, rest)) == Ok(Parsed(v, rest))
  {
    IntegersRoundTrip(v.value, 0, 0, 0, 0, rest);
  }

  lemma {:induction false} VolumeCanonical(bytes: Bytes)
    requires GetVolume(bytes).Ok?
    ensures bytes == PutVolume(GetVolume(bytes).value.value, GetVolume(bytes).value.rest)
  {
    U64Canonical(bytes[1..]);
  }

  function PutKind(kind: TradeKind, rest: Bytes): Bytes {
    PutU8(if kind == Regular then 0 else 1, rest)
  }

  function GetKind(bytes: Bytes): Decoded<TradeKind> {
    var tag :- GetU8(bytes);
    if tag.value == 0 then Ok(Parsed(Regular, tag.rest))
    else if tag.value == 1 then Ok(Parsed(Intermediate, tag.rest))
    else Err(InvalidValue)
  }

  lemma {:induction false} KindCanonical(bytes: Bytes)
    requires GetKind(bytes).Ok?
    ensures bytes == PutKind(GetKind(bytes).value.value, GetKind(bytes).value.rest)
  {
    assert bytes == [bytes[0]] + bytes[1..];
  }

  function PutTrade(t: ObservedTrade, rest: Bytes): Bytes {
    PutI128(t.price, PutQuantity(t.quantity, PutKind(t.kind, rest)))
  }

  function GetTrade(bytes: Bytes): Decoded<ObservedTrade> {
    var price :- GetI128(bytes);
    var quantity :- GetQuantity(price.rest);
    var kind :- GetKind(quantity.rest);
    Ok(Parsed(ObservedTrade(price.value, quantity.value, kind.value), kind.rest))
  }

  lemma {:induction false} QuantityRoundTrip(q: Quantity, rest: Bytes)
    ensures GetQuantity(PutQuantity(q, rest)) == Ok(Parsed(q, rest))
  {
    VolumeRoundTrip(Volume(q.value, q.unit), rest);
  }

  lemma {:induction false} QuantityCanonical(bytes: Bytes)
    requires GetQuantity(bytes).Ok?
    ensures bytes == PutQuantity(GetQuantity(bytes).value.value, GetQuantity(bytes).value.rest)
  {
    VolumeCanonical(bytes);
  }

  lemma {:induction false} TradeRoundTrip(t: ObservedTrade, rest: Bytes)
    ensures GetTrade(PutTrade(t, rest)) == Ok(Parsed(t, rest))
  {
    var kind := PutKind(t.kind, rest);
    IntegersRoundTrip(0, t.price, 0, 0, 0, PutQuantity(t.quantity, kind));
    QuantityRoundTrip(t.quantity, kind);
  }

  lemma {:induction false} TradeCanonical(bytes: Bytes)
    requires GetTrade(bytes).Ok?
    ensures bytes == PutTrade(GetTrade(bytes).value.value, GetTrade(bytes).value.rest)
  {
    I128Canonical(bytes);
    var price := GetI128(bytes).value;
    QuantityCanonical(price.rest);
    KindCanonical(GetQuantity(price.rest).value.rest);
  }
}
