module AccountingErrors {
  import opened MarketTypes

  datatype AccountingError =
    | InvalidModel
    | InvalidPriceForInstrument
    | Overflow
    | PrecisionLoss
    | Reconciliation
    | EmptyUniverse
    | DuplicateInstrument(instrument: InstrumentId)
    | UnknownInstrument(instrument: InstrumentId)
    | QuantityUnitMismatch(expected: QuantityUnit, actual: QuantityUnit)
    | AccountingModelMismatch(instrument: InstrumentId)
    | MissingFinalMark(instrument: InstrumentId)
    | InvalidTradingDate
    | InvalidCashCharge
    | DuplicateCashCharge(identity: string)
}
