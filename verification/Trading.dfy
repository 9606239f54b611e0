/** What a strategy asks for, and what a trading phase lets in. */
module Trading {
  import opened MarketTypes

  datatype MatchingMethod = CallAuction | ContinuousMatching
  datatype MatchingState = Enabled(how: MatchingMethod) | MatchingClosed | MatchingUnknown
  datatype Restriction = PreOpenLimitOrdersOnly | AuctionCollecting
  datatype NewOrderEntry = EntryAllowed | EntryRestricted(reason: Restriction) | EntryBlocked | EntryUnknown

  predicate EntryAllows(entry: NewOrderEntry, orderType: OrderType) {
    match entry
    case EntryAllowed => true
    case EntryRestricted(_) => orderType.Limit?
    case EntryBlocked => false
    case EntryUnknown => false
  }

  datatype Intent = Intent(instrument: InstrumentId, side: OrderSide, quantity: Quantity, orderType: OrderType)

  predicate LimitAccepted(orderType: OrderType, policy: PricePolicy) {
    match orderType
    case Market => true
    case Limit(price) => Accepts(policy, price)
  }
}
