/** The values every component exchanges. Prices and amounts are signed 10^-18 atoms. */
module MarketTypes {
  import opened MachineIntegers

  datatype MarketId = Twse | Tpex | Taifex

  /** Its number in stored data, and its place in every order. */
  function MarketTag(m: MarketId): byte {
    match m
    case Twse => 1
    case Tpex => 2
    case Taifex => 3
  }

  datatype InstrumentId = InstrumentId(market: MarketId, symbol: Bytes)

  datatype QuantityUnit = SourceUnit | Share | TradingUnit | Contract

  /** A quantity constructor refuses zero. */
  datatype RawQuantity = Quantity(value: u64, unit: QuantityUnit)
  type Quantity = q: RawQuantity | q.value > 0 witness Quantity(1, SourceUnit)

  datatype OrderSide = Buy | Sell

  datatype OrderType = Market | Limit(limitPrice: i128)

  datatype PricePolicy = PositiveOnly | Signed

  predicate Accepts(policy: PricePolicy, price: int) {
    policy == Signed || price > 0
  }

  type OrderId = string

  datatype FillTrigger = MarketEvent(runEventOrdinal: u64) | Control(controlSequence: u64)

  datatype FillRecord = FillRecord(orderId: OrderId, trigger: FillTrigger, matchTime: i64, side: OrderSide,
                                   price: i128, quantity: Quantity)
}
