/** Many instruments over one cash pool, as a value, and the equity identity that ties them together. */
module MultiLedgerModel {
  import opened Wrappers
  import opened MachineIntegers
  import opened MarketTypes
  import opened AccountingErrors
  import opened ExactArithmetic
  import opened PositionAccounting
  import opened DayTradeTax
  import opened LedgerModel
  import opened LedgerFills
  import Sorting
  import InstrumentOrder

  datatype InstrumentConfig = InstrumentConfig(instrument: InstrumentId, quantityUnit: QuantityUnit, pricePolicy: PricePolicy,
                                               economics: Economics, fee: ChargeModel, tax: ChargeModel,
                                               model: AccountingModel, dayTrade: Option<TaxModel>)

  datatype Entry = Entry(quantityUnit: QuantityUnit, pricePolicy: PricePolicy, model: AccountingModel,
                         config: LedgerConfig, state: LedgerState, fills: seq<FillRecord>)

  datatype CashCharge = CashCharge(identity: string, at: i64, amount: i128, category: string, reference: string)

  datatype MultiState = MultiState(initialCash: i128, cash: i128, order: seq<InstrumentId>, ledgers: map<InstrumentId, Entry>,
                                   charges: seq<CashCharge>)

  predicate ModelMatchesMarket(instrument: InstrumentId, model: AccountingModel) {
    if instrument.market == Taifex then model == FuturesV1 || model == OptionsV1 else model == EquityV1
  }

  function OpenEntry(c: InstrumentConfig): Result<Entry, AccountingError> {
    if !ModelMatchesMarket(c.instrument, c.model) || c.quantityUnit == SourceUnit || (c.dayTrade.Some? && c.model != EquityV1)
    then Err(AccountingModelMismatch(c.instrument))
    else if !ValidModels(c.economics, c.fee, c.tax) || (c.dayTrade.Some? && !ValidTaxModel(c.dayTrade.value))
    then Err(InvalidModel)
    else
      var config := LedgerConfig(0, c.economics, c.fee, c.tax, c.model, c.dayTrade);
      Ok(Entry(c.quantityUnit, c.pricePolicy, c.model, config, Opening(config), []))
  }

  /** The models an instrument's market and unit allow: futures or options on the futures exchange, shares elsewhere, and
      day trades only of shares. */
  predicate Permitted(c: InstrumentConfig) {
    && (match c.instrument.market
        case Taifex => c.model != EquityV1
        case Twse => c.model == EquityV1
        case Tpex => c.model == EquityV1)
    && c.quantityUnit != SourceUnit && (c.dayTrade == None || c.model == EquityV1)
  }

  predicate Proper(c: InstrumentConfig) {
    && c.economics.units > 0 && c.economics.multiplier > 0 && c.economics.provenance != ""
    && ProperCharge(c.fee) && ProperCharge(c.tax) && (c.dayTrade == None || ProperTaxModel(c.dayTrade.value))
  }

  /** A ledger is opened exactly for a configuration that is permitted and proper; it is empty, without cash of its own,
      and has every part of its configuration in its own place. */
  lemma {:induction false} OpenEntryExactly(c: InstrumentConfig)
    ensures var r := OpenEntry(c);
      && (r.Ok? <==> Permitted(c) && Proper(c))
      && (r.Err? ==> r.error == if Permitted(c) then InvalidModel else AccountingModelMismatch(c.instrument))
      && (r.Ok? ==>
            var e := r.value;
            && e.quantityUnit == c.quantityUnit && e.pricePolicy == c.pricePolicy && e.model == c.model && e.fills == []
            && e.config.initialCash == 0 && e.config.economics == c.economics && e.config.model == c.model
            && e.config.fee == c.fee && e.config.tax == c.tax && e.config.dayTrade == c.dayTrade
            && e.state.cash == e.state.position == e.state.basis == e.state.realized == e.state.totalFee == e.state.totalTax == 0
            && e.state.averageCost == None && e.state.buys == [] && e.state.sells == [] && e.state.fillCosts == [])
  {
    assert OpenEntry(c).Ok? ==> AcceptsFills(OpenEntry(c).value.config);
  }

  // --------------------------------------------------------------------- sums

  function Sum(order: seq<InstrumentId>, value: InstrumentId -> int): int {
    if order == [] then 0 else value(order[0]) + Sum(order[1..], value)
  }

  function Total(charges: seq<CashCharge>): int {
    if charges == [] then 0 else charges[0].amount + Total(charges[1..])
  }

  lemma {:induction false} SumChanges(order: seq<InstrumentId>, key: InstrumentId, before: InstrumentId -> int, after: InstrumentId -> int)
    requires forall i, j :: 0 <= i < j < |order| ==> order[i] != order[j]
    requires forall k :: k in order && k != key ==> after(k) == before(k)
    ensures Sum(order, after) == Sum(order, before) + (if key in order then after(key) - before(key) else 0)
  {
    if order != [] {
      assert order == [order[0]] + order[1..];
      SumChanges(order[1..], key, before, after);
    }
  }

  lemma {:induction false} SumSplits(a: seq<InstrumentId>, b: seq<InstrumentId>, value: InstrumentId -> int)
    ensures Sum(a + b, value) == Sum(a, value) + Sum(b, value)
  {
    if a == [] {
      assert a + b == b;
    } else {
      assert (a + b)[1..] == a[1..] + b;
      SumSplits(a[1..], b, value);
    }
  }

  lemma {:induction false} SumNext(order: seq<InstrumentId>, n: nat, value: InstrumentId -> int)
    requires n < |order|
    ensures Sum(order[..n + 1], value) == Sum(order[..n], value) + value(order[n])
  {
    assert order[..n + 1] == order[..n] + [order[n]];
    SumSplits(order[..n], [order[n]], value);
  }

  // --------------------------------------------------------------- invariant

  /** `order` lists the keys as the map of the source holds them, in key order. */
  ghost predicate ListsKeys(order: seq<InstrumentId>, ledgers: map<InstrumentId, Entry>) {
    && (forall k :: k in order <==> k in ledgers)
    && (forall i, j :: 0 <= i < j < |order| ==> order[i] != order[j])
    && Sorting.Sorted(order, InstrumentOrder.AtOrBefore)
  }

  function CashOf(ledgers: map<InstrumentId, Entry>): InstrumentId -> int {
    k => if k in ledgers then ledgers[k].state.cash else 0
  }

  ghost predicate ValidEntry(e: Entry) {
    Replay(e.config, e.fills) == Ok(e.state) && e.config.initialCash == 0 && e.model == e.config.model
  }

  ghost predicate AllValid(ledgers: map<InstrumentId, Entry>) {
    forall k {:trigger ValidEntry(ledgers[k])} :: k in ledgers ==> ValidEntry(ledgers[k])
  }

  ghost predicate DistinctIdentities(charges: seq<CashCharge>) {
    forall i, j :: 0 <= i < j < |charges| ==> charges[i].identity != charges[j].identity
  }

  function Identities(charges: seq<CashCharge>): set<string> {
    set c | c in charges :: c.identity
  }

  ghost predicate ValidState(s: MultiState) {
    && ListsKeys(s.order, s.ledgers)
    && AllValid(s.ledgers)
    && DistinctIdentities(s.charges)
    && s.cash == s.initialCash + Sum(s.order, CashOf(s.ledgers)) - Total(s.charges)
  }

  // -------------------------------------------------------------------- fills

  function FillInstrument(s: MultiState, instrument: InstrumentId, fill: FillRecord): Result<MultiState, AccountingError> {
    if instrument !in s.ledgers then Err(UnknownInstrument(instrument)) else
    var entry := s.ledgers[instrument];
    if fill.quantity.unit != entry.quantityUnit then Err(QuantityUnitMismatch(entry.quantityUnit, fill.quantity.unit))
    else if !Accepts(entry.pricePolicy, fill.price) then Err(InvalidPriceForInstrument)
    else
      var next :- ApplyFill(EffectsOf(entry.config), entry.state, fill);
      var cashDelta :- Checked(next.cash - entry.state.cash);
      var cash :- Checked(s.cash + cashDelta);
      Ok(s.(cash := cash, ledgers := s.ledgers[instrument := entry.(state := next, fills := entry.fills + [fill])]))
  }

  /** A fill of one instrument keeps the shared cash the sum of every ledger's. */
  lemma {:induction false} FillKeepsValid(s: MultiState, instrument: InstrumentId, fill: FillRecord)
    requires ValidState(s) && FillInstrument(s, instrument, fill).Ok?
    ensures ValidState(FillInstrument(s, instrument, fill).value)
  {
    var next := FillInstrument(s, instrument, fill).value;
    assert ValidEntry(s.ledgers[instrument]);
    ReplayExtends(s.ledgers[instrument], next.ledgers[instrument], fill);
    forall k {:trigger ValidEntry(next.ledgers[k])} | k in next.ledgers ensures ValidEntry(next.ledgers[k]) {
      assert k != instrument ==> ValidEntry(s.ledgers[k]);
    }
    SumChanges(s.order, instrument, CashOf(s.ledgers), CashOf(next.ledgers));
  }

  lemma {:induction false} ReplayExtends(entry: Entry, next: Entry, fill: FillRecord)
    requires ValidEntry(entry) && ApplyFill(EffectsOf(entry.config), entry.state, fill) == Ok(next.state)
    requires next == entry.(state := next.state, fills := entry.fills + [fill])
    ensures ValidEntry(next)
  {
    assert next.fills[..|next.fills| - 1] == entry.fills;
  }

  // ------------------------------------------------------------- cash charges

  /** Unicode white space, which `trim` removes. */
  predicate IsSpace(c: char) {
    var n := c as int;
    9 <= n <= 13 || n == 0x20 || n == 0x85 || n == 0xA0 || n == 0x1680 || 0x2000 <= n <= 0x200A
    || n == 0x2028 || n == 0x2029 || n == 0x202F || n == 0x205F || n == 0x3000
  }

  predicate Blank(s: string) {
    forall c :: c in s ==> IsSpace(c)
  }

  predicate ValidCashCharge(c: CashCharge) {
    c.amount >= 0 && !Blank(c.category) && !Blank(c.reference)
  }

  datatype Charged = Charged(cash: i128, identities: set<string>)

  function ChargeAll(cash: i128, identities: set<string>, charges: seq<CashCharge>): Result<Charged, AccountingError>
    decreases charges
  {
    if charges == [] then Ok(Charged(cash, identities)) else
    var c := charges[0];
    if !ValidCashCharge(c) then Err(InvalidCashCharge)
    else if c.identity in identities then Err(AccountingError.DuplicateCashCharge(c.identity))
    else
      var next :- Checked(cash - c.amount);
      ChargeAll(next, identities + {c.identity}, charges[1..])
  }

  function ApplyCharges(s: MultiState, charges: seq<CashCharge>): Result<MultiState, AccountingError> {
    var charged :- ChargeAll(s.cash, Identities(s.charges), charges);
    Ok(s.(cash := charged.cash, charges := s.charges + charges))
  }

  /** A batch of charges is taken exactly when every charge is valid, every identity is new, and
      each balance on the way is representable; cash then drops by exactly their sum. */
  lemma {:induction false} ChargeAllMeaning(cash: i128, paid: seq<CashCharge>, charges: seq<CashCharge>)
    requires DistinctIdentities(paid)
    ensures var r := ChargeAll(cash, Identities(paid), charges);
      && (r.Ok? <==> && (forall c :: c in charges ==> ValidCashCharge(c))
                     && DistinctIdentities(paid + charges)
                     && BalancesFit(cash, charges))
      && (r.Ok? ==> r.value.cash == cash - Total(charges) && r.value.identities == Identities(paid + charges))
    decreases charges
  {
    if charges == [] {
      assert paid + charges == paid;
      return;
    }
    var c, rest := charges[0], charges[1..];
    assert charges == [c] + rest && paid + charges == (paid + [c]) + rest;
    NextIdentity(paid, c, rest);
    if c.identity !in Identities(paid) && ValidCashCharge(c) && IsI128(cash - c.amount) {
      ChargeAllMeaning(cash - c.amount, paid + [c], rest);
    }
  }

  lemma {:induction false} NextIdentity(paid: seq<CashCharge>, c: CashCharge, rest: seq<CashCharge>)
    requires DistinctIdentities(paid)
    ensures Identities(paid + [c]) == Identities(paid) + {c.identity}
    ensures if c.identity in Identities(paid) then !DistinctIdentities((paid + [c]) + rest) else DistinctIdentities(paid + [c])
  {
    if c.identity in Identities(paid) {
      var i :| 0 <= i < |paid| && paid[i].identity == c.identity;
      assert ((paid + [c]) + rest)[i].identity == ((paid + [c]) + rest)[|paid|].identity;
    } else {
      assert forall i :: 0 <= i < |paid| ==> paid[i].identity in Identities(paid);
    }
  }

  /** Every balance on the way is representable. */
  predicate BalancesFit(cash: int, charges: seq<CashCharge>)
    decreases charges
  {
    charges == [] || (IsI128(cash - charges[0].amount) && BalancesFit(cash - charges[0].amount, charges[1..]))
  }

  /** Every partial sum of the amounts is representable. */
  predicate TotalsFit(total: int, charges: seq<CashCharge>)
    decreases charges
  {
    charges == [] || (IsI128(total + charges[0].amount) && TotalsFit(total + charges[0].amount, charges[1..]))
  }

  lemma {:induction false} TotalSplits(a: seq<CashCharge>, b: seq<CashCharge>)
    ensures Total(a + b) == Total(a) + Total(b)
  {
    if a == [] {
      assert a + b == b;
    } else {
      assert (a + b)[1..] == a[1..] + b;
      TotalSplits(a[1..], b);
    }
  }

  /** A batch of charges keeps the shared cash accounted for. */
  lemma {:induction false} ChargesKeepValid(s: MultiState, charges: seq<CashCharge>)
    requires ValidState(s) && ApplyCharges(s, charges).Ok?
    ensures ValidState(ApplyCharges(s, charges).value)
  {
    ChargeAllMeaning(s.cash, s.charges, charges);
    TotalSplits(s.charges, charges);
  }

  /** Rebuilding adds the ledgers and subtracts the charges in their own order, which may pass
      through sums that the run itself never held. */
  predicate RebuildFits(s: MultiState) {
    && SumsFit(s.initialCash, s.order, CashOf(s.ledgers))
    && BalancesFit(s.initialCash + Sum(s.order, CashOf(s.ledgers)), s.charges)
  }

  predicate SumsFit(start: int, order: seq<InstrumentId>, value: InstrumentId -> int)
    decreases order
  {
    order == [] || (IsI128(start + value(order[0])) && SumsFit(start + value(order[0]), order[1..], value))
  }

  /** Adds the values one by one, each sum checked. */
  function AddAll(start: int, order: seq<InstrumentId>, value: InstrumentId -> int): Result<int, AccountingError>
    decreases order
  {
    if order == [] then Ok(start)
    else if !IsI128(start + value(order[0])) then Err(Overflow)
    else AddAll(start + value(order[0]), order[1..], value)
  }

  lemma {:induction false} AddAllMeaning(start: int, order: seq<InstrumentId>, value: InstrumentId -> int)
    ensures AddAll(start, order, value) == if SumsFit(start, order, value) then Ok(start + Sum(order, value)) else Err(Overflow)
    decreases order
  {
    if order != [] && IsI128(start + value(order[0])) {
      AddAllMeaning(start + value(order[0]), order[1..], value);
    }
  }

  lemma {:induction false} AddNext(start: int, order: seq<InstrumentId>, value: InstrumentId -> int, first: int)
    requires order != [] && value(order[0]) == first
    ensures AddAll(start, order, value) == if IsI128(start + first) then AddAll(start + first, order[1..], value) else Err(Overflow)
  {
  }

  // ------------------------------------------------------------------- equity

  type Marks = map<InstrumentId, Option<i128>>

  function MarkOf(marks: Marks, instrument: InstrumentId): Option<int> {
    if instrument in marks && marks[instrument].Some? then Some(marks[instrument].value) else None
  }

  function UnrealizedOf(entry: Entry, mark: Option<int>): int {
    match UnrealizedPnl(entry.config, entry.state, mark)
    case Ok(Some(pnl)) => pnl
    case _ => 0
  }

  function AdjustmentOf(entry: Entry, mark: Option<int>): int {
    if mark == None then 0 else
    match MarkAdjustment(entry.config, entry.state, mark.value)
    case Ok(adjustment) => adjustment
    case Err(_) => 0
  }

  /** The marks with which both the summary and the adjustment of an instrument succeed. */
  predicate AcceptsMark(entry: Entry, mark: Option<int>) {
    entry.state.position == 0
    || (mark.Some? && UnrealizedPnl(entry.config, entry.state, mark).Ok? && MarkAdjustment(entry.config, entry.state, mark.value).Ok?)
  }

  function Each(ledgers: map<InstrumentId, Entry>, value: Entry -> int): InstrumentId -> int {
    k => if k in ledgers then value(ledgers[k]) else 0
  }

  function EntryRealized(e: Entry): int {
    e.state.realized
  }

  function EntryFee(e: Entry): int {
    e.state.totalFee
  }

  function EntryTax(e: Entry): int {
    e.state.totalTax
  }

  function EntryFills(e: Entry): int {
    |e.fills|
  }

  function RealizedOf(s: MultiState): int {
    Sum(s.order, Each(s.ledgers, EntryRealized))
  }

  function FeesPaid(s: MultiState): int {
    Sum(s.order, Each(s.ledgers, EntryFee))
  }

  function TaxesPaid(s: MultiState): int {
    Sum(s.order, Each(s.ledgers, EntryTax))
  }

  function FillsBooked(s: MultiState): int {
    Sum(s.order, Each(s.ledgers, EntryFills))
  }

  function Marked(ledgers: map<InstrumentId, Entry>, marks: Marks, value: (Entry, Option<int>) -> int): InstrumentId -> int {
    k => if k in ledgers then value(ledgers[k], MarkOf(marks, k)) else 0
  }

  function Unrealized(s: MultiState, marks: Marks): int {
    Sum(s.order, Marked(s.ledgers, marks, UnrealizedOf))
  }

  function Adjustments(s: MultiState, marks: Marks): int {
    Sum(s.order, Marked(s.ledgers, marks, AdjustmentOf))
  }

  lemma {:induction false} EntryEquity(entry: Entry, mark: Option<int>)
    requires ValidEntry(entry) && AcceptsMark(entry, mark)
    ensures entry.state.cash + AdjustmentOf(entry, mark)
      == entry.state.realized + UnrealizedOf(entry, mark) - entry.state.totalFee - entry.state.totalTax
  {
    CashIdentity(entry.config, entry.fills, entry.state);
    ReplayConserves(entry.config, entry.fills, entry.state);
    if entry.state.position == 0 {
      FlatIsBalanced(entry);
    } else {
      MarkedEquity(entry.config, entry.state, mark.value);
    }
  }

  lemma {:induction false} FlatIsBalanced(entry: Entry)
    requires CashBalanced(entry.config, entry.state) && entry.config.initialCash == 0
    requires entry.state.position == 0 && entry.state.basis == 0
    ensures entry.state.cash == entry.state.realized - entry.state.totalFee - entry.state.totalTax
  {
  }

  lemma {:induction false} SumsBalance(order: seq<InstrumentId>, a: InstrumentId -> int, b: InstrumentId -> int, c: InstrumentId -> int,
                                       d: InstrumentId -> int, e: InstrumentId -> int, f: InstrumentId -> int)
    requires forall k :: k in order ==> a(k) + b(k) == c(k) + d(k) - e(k) - f(k)
    ensures Sum(order, a) + Sum(order, b) == Sum(order, c) + Sum(order, d) - Sum(order, e) - Sum(order, f)
  {
    if order != [] {
      SumsBalance(order[1..], a, b, c, d, e, f);
    }
  }

  /** Shared cash plus every mark-to-market adjustment is exactly the initial cash plus realized
      and unrealized results, less fees, taxes and cash charges, across all accounting models. */
  lemma {:induction false} SharedCashEquity(s: MultiState, marks: Marks)
    requires ValidState(s)
    requires forall k :: k in s.ledgers ==> AcceptsMark(s.ledgers[k], MarkOf(marks, k))
    ensures s.cash + Adjustments(s, marks)
      == s.initialCash + RealizedOf(s) + Unrealized(s, marks) - FeesPaid(s) - TaxesPaid(s) - Total(s.charges)
  {
    forall k | k in s.order
      ensures CashOf(s.ledgers)(k) + Marked(s.ledgers, marks, AdjustmentOf)(k)
        == Each(s.ledgers, EntryRealized)(k) + Marked(s.ledgers, marks, UnrealizedOf)(k)
           - Each(s.ledgers, EntryFee)(k) - Each(s.ledgers, EntryTax)(k)
    {
      var e, mark := s.ledgers[k], MarkOf(marks, k);
      assert ValidEntry(e);
      EntryEquity(e, mark);
      assert Marked(s.ledgers, marks, AdjustmentOf)(k) == AdjustmentOf(e, mark);
      assert Marked(s.ledgers, marks, UnrealizedOf)(k) == UnrealizedOf(e, mark);
      assert Each(s.ledgers, EntryRealized)(k) == EntryRealized(e);
      assert Each(s.ledgers, EntryFee)(k) == EntryFee(e) && Each(s.ledgers, EntryTax)(k) == EntryTax(e);
    }
    SumsBalance(s.order, CashOf(s.ledgers),
                Marked(s.ledgers, marks, AdjustmentOf),
                Each(s.ledgers, EntryRealized),
                Marked(s.ledgers, marks, UnrealizedOf),
                Each(s.ledgers, EntryFee), Each(s.ledgers, EntryTax));
  }
}
