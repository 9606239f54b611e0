/** The multi-instrument ledger object. */
module MultiLedgers {
  import opened Wrappers
  import opened MachineIntegers
  import opened MarketTypes
  import opened AccountingErrors
  import opened ExactArithmetic
  import opened LedgerModel
  import opened Ledgers
  import opened MultiLedgerModel
  import opened PositionAccounting
  import opened Sorting
  import opened InstrumentOrder

  datatype InstrumentPerformance = InstrumentPerformance(
    instrument: InstrumentId, quantityUnit: QuantityUnit, model: AccountingModel, economics: Economics, averageCost: Option<int>,
    finalCash: int, position: int, realized: int, unrealized: int, totalFee: int, totalTax: int, fillCount: nat)

  /** What a summary reports, summed over the instruments. */
  datatype Performance = Performance(initialCash: int, finalCash: int, columns: Columns, totalCharges: int,
                                     instruments: seq<InstrumentPerformance>)

  /** Per-instrument results summed over some instruments. */
  datatype Columns = Columns(realized: int, unrealized: int, fee: int, tax: int, fills: int)

  ghost function ColumnsOf(order: seq<InstrumentId>, ledgers: map<InstrumentId, Entry>, marks: Marks): Columns {
    Columns(Sum(order, Each(ledgers, EntryRealized)), Sum(order, Marked(ledgers, marks, UnrealizedOf)),
            Sum(order, Each(ledgers, EntryFee)), Sum(order, Each(ledgers, EntryTax)), Sum(order, Each(ledgers, EntryFills)))
  }

  predicate ColumnsFit(c: Columns) {
    IsI128(c.realized) && IsI128(c.unrealized) && IsI128(c.fee) && IsI128(c.tax) && IsU64(c.fills)
  }

  function PlusEntry(c: Columns, entry: Entry, pnl: int): Columns {
    Columns(c.realized + entry.state.realized, c.unrealized + pnl, c.fee + entry.state.totalFee, c.tax + entry.state.totalTax,
            c.fills + |entry.fills|)
  }

  /** The checked additions, one after the other. */
  method AddEntry(c: Columns, entry: Entry, pnl: int) returns (r: Result<Columns, AccountingError>)
    ensures r == if ColumnsFit(PlusEntry(c, entry, pnl)) then Ok(PlusEntry(c, entry, pnl)) else Err(Overflow)
  {
    var realized :- Checked(c.realized + entry.state.realized);
    var unrealized :- Checked(c.unrealized + pnl);
    var fee :- Checked(c.fee + entry.state.totalFee);
    var tax :- Checked(c.tax + entry.state.totalTax);
    var fills := c.fills + |entry.fills|;
    if !IsU64(fills) {
      return Err(Overflow);
    }
    return Ok(Columns(realized, unrealized, fee, tax, fills));
  }

  lemma {:induction false} ColumnsNext(order: seq<InstrumentId>, n: nat, ledgers: map<InstrumentId, Entry>, marks: Marks, pnl: int)
    requires n < |order| && order[n] in ledgers
    requires UnrealizedPnl(ledgers[order[n]].config, ledgers[order[n]].state, MarkOf(marks, order[n])) == Ok(Some(pnl))
    ensures PlusEntry(ColumnsOf(order[..n], ledgers, marks), ledgers[order[n]], pnl) == ColumnsOf(order[..n + 1], ledgers, marks)
  {
    SumNext(order, n, Each(ledgers, EntryRealized));
    SumNext(order, n, Marked(ledgers, marks, UnrealizedOf));
    SumNext(order, n, Each(ledgers, EntryFee));
    SumNext(order, n, Each(ledgers, EntryTax));
    SumNext(order, n, Each(ledgers, EntryFills));
    assert Marked(ledgers, marks, UnrealizedOf)(order[n]) == UnrealizedOf(ledgers[order[n]], MarkOf(marks, order[n]));
  }

  /** The instrument at `n` has an unrealized result, and every column fits with it. */
  ghost predicate Summable(order: seq<InstrumentId>, n: nat, ledgers: map<InstrumentId, Entry>, marks: Marks)
    requires n < |order| && order[n] in ledgers
  {
    var pnl := UnrealizedPnl(ledgers[order[n]].config, ledgers[order[n]].state, MarkOf(marks, order[n]));
    pnl.Ok? && pnl.value.Some? && ColumnsFit(ColumnsOf(order[..n + 1], ledgers, marks))
  }

  /** The error of an instrument that is not summable: its own, or a missing mark, or a column's. */
  function SummingError(k: InstrumentId, ledgers: map<InstrumentId, Entry>, marks: Marks): AccountingError
    requires k in ledgers
  {
    match UnrealizedPnl(ledgers[k].config, ledgers[k].state, MarkOf(marks, k))
    case Err(e) => e
    case Ok(None) => MissingFinalMark(k)
    case Ok(Some(_)) => Overflow
  }

  ghost predicate FirstFailure(order: seq<InstrumentId>, n: nat, ledgers: map<InstrumentId, Entry>, marks: Marks)
    requires ListsKeys(order, ledgers)
  {
    n < |order| && !Summable(order, n, ledgers, marks) && forall j :: 0 <= j < n ==> Summable(order, j, ledgers, marks)
  }

  ghost predicate FailsWith(order: seq<InstrumentId>, n: nat, ledgers: map<InstrumentId, Entry>, marks: Marks, error: AccountingError)
    requires ListsKeys(order, ledgers)
  {
    FirstFailure(order, n, ledgers, marks) && error == SummingError(order[n], ledgers, marks)
  }

  ghost predicate AllSummable(order: seq<InstrumentId>, ledgers: map<InstrumentId, Entry>, marks: Marks)
    requires ListsKeys(order, ledgers)
  {
    forall n :: 0 <= n < |order| ==> Summable(order, n, ledgers, marks)
  }

  function PerformanceOf(k: InstrumentId, entry: Entry, mark: Option<int>): InstrumentPerformance {
    InstrumentPerformance(k, entry.quantityUnit, entry.model, entry.config.economics, entry.state.averageCost, entry.state.cash,
                          entry.state.position, entry.state.realized, UnrealizedOf(entry, mark), entry.state.totalFee,
                          entry.state.totalTax, |entry.fills|)
  }

  /** Adds the instrument at `n` to the columns of the ones before it. */
  method AddInstrument(order: seq<InstrumentId>, n: nat, ledgers: map<InstrumentId, Entry>, marks: Marks, columns: Columns)
    returns (r: Result<Columns, AccountingError>)
    requires n < |order| && order[n] in ledgers && columns == ColumnsOf(order[..n], ledgers, marks)
    ensures r.Ok? <==> Summable(order, n, ledgers, marks)
    ensures r.Ok? ==> r.value == ColumnsOf(order[..n + 1], ledgers, marks)
    ensures r.Err? ==> r.error == SummingError(order[n], ledgers, marks)
  {
    var entry := ledgers[order[n]];
    var pnl :- UnrealizedPnl(entry.config, entry.state, MarkOf(marks, order[n]));
    if pnl == None {
      return Err(MissingFinalMark(order[n]));
    }
    ColumnsNext(order, n, ledgers, marks, pnl.value);
    r := AddEntry(columns, entry, pnl.value);
  }

  method SumColumns(order: seq<InstrumentId>, ledgers: map<InstrumentId, Entry>, marks: Marks) returns (r: Result<Columns, AccountingError>)
    requires ListsKeys(order, ledgers)
    ensures r.Ok? <==> AllSummable(order, ledgers, marks)
    ensures r.Err? ==> exists n :: FailsWith(order, n, ledgers, marks, r.error)
    ensures r.Ok? ==> r.value == ColumnsOf(order, ledgers, marks)
  {
    var columns := Columns(0, 0, 0, 0, 0);
    var i := 0;
    while i < |order|
      invariant 0 <= i <= |order| && columns == ColumnsOf(order[..i], ledgers, marks)
      invariant forall j :: 0 <= j < i ==> Summable(order, j, ledgers, marks)
    {
      var next := AddInstrument(order, i, ledgers, marks, columns);
      if next.Err? {
        assert FailsWith(order, i, ledgers, marks, next.error);
        return Err(next.error);
      }
      columns, i := next.value, i + 1;
    }
    assert order[..i] == order;
    return Ok(columns);
  }

  method ReportAll(order: seq<InstrumentId>, ledgers: map<InstrumentId, Entry>, marks: Marks) returns (r: seq<InstrumentPerformance>)
    requires ListsKeys(order, ledgers)
    ensures |r| == |order|
    ensures forall i :: 0 <= i < |order| ==> r[i] == PerformanceOf(order[i], ledgers[order[i]], MarkOf(marks, order[i]))
  {
    r := [];
    for i := 0 to |order|
      invariant |r| == i
      invariant forall j :: 0 <= j < i ==> r[j] == PerformanceOf(order[j], ledgers[order[j]], MarkOf(marks, order[j]))
    {
      r := r + [PerformanceOf(order[i], ledgers[order[i]], MarkOf(marks, order[i]))];
    }
  }

  method TotalCharges(charges: seq<CashCharge>) returns (r: Result<int, AccountingError>)
    ensures r == if TotalsFit(0, charges) then Ok(Total(charges)) else Err(Overflow)
  {
    var total, j := 0, 0;
    while j < |charges|
      invariant 0 <= j <= |charges| && total + Total(charges[j..]) == Total(charges)
      invariant TotalsFit(total, charges[j..]) == TotalsFit(0, charges)
    {
      assert charges[j..][1..] == charges[j + 1..];
      if !IsI128(total + charges[j].amount) {
        return Err(Overflow);
      }
      total := total + charges[j].amount;
      j := j + 1;
    }
    return Ok(total);
  }

  method ReconcileEntry(instrument: InstrumentId, ledgers: map<InstrumentId, Entry>) returns (r: Result<(), AccountingError>)
    requires instrument in ledgers && AllValid(ledgers)
    ensures r == Ok(())
  {
    var entry := ledgers[instrument];
    assert ValidEntry(entry);
    if entry.config.model != entry.model {
      return Err(Reconciliation);
    }
    var ledger := new Ledger.Copy(entry.config, entry.state, entry.fills);
    r := ledger.Reconcile();
  }

  method RebuildLedgers(initialCash: i128, order: seq<InstrumentId>, ledgers: map<InstrumentId, Entry>)
    returns (r: Result<i128, AccountingError>)
    requires ListsKeys(order, ledgers) && AllValid(ledgers)
    ensures r == AddAll(initialCash, order, CashOf(ledgers))
  {
    ghost var cashOf, rest, whole := CashOf(ledgers), order, AddAll(initialCash, order, CashOf(ledgers));
    var rebuilt: i128 := initialCash;
    var i := 0;
    while i < |order|
      invariant 0 <= i <= |order| && rest == order[i..]
      invariant whole == AddAll(rebuilt, rest, cashOf)
    {
      var reconciled := ReconcileEntry(order[i], ledgers);
      match reconciled {
        case Err(e) => return Err(e);
        case Ok(_) =>
      }
      var cash: int := ledgers[order[i]].state.cash;
      AddNext(rebuilt, rest, cashOf, cash);
      if !IsI128(rebuilt + cash) {
        return Err(Overflow);
      }
      rebuilt, rest := rebuilt + cash, rest[1..];
      i := i + 1;
    }
    return Ok(rebuilt);
  }

  /** Deducts the recorded charges again, checking that none repeats. */
  method DeductCharges(cash: i128, charges: seq<CashCharge>) returns (r: Result<i128, AccountingError>, known: set<string>)
    requires DistinctIdentities(charges)
    ensures r == if BalancesFit(cash, charges) then Ok(cash - Total(charges)) else Err(Overflow)
    ensures r.Ok? ==> known == Identities(charges)
  {
    var rebuilt: i128 := cash;
    known := {};
    var j := 0;
    while j < |charges|
      invariant 0 <= j <= |charges|
      invariant known == Identities(charges[..j])
      invariant rebuilt - Total(charges[j..]) == cash - Total(charges)
      invariant BalancesFit(rebuilt, charges[j..]) == BalancesFit(cash, charges)
    {
      assert charges[..j + 1] == charges[..j] + [charges[j]] && charges[j..][1..] == charges[j + 1..];
      if charges[j].identity in known {
        return Err(Reconciliation), known;
      }
      known := known + {charges[j].identity};
      var next := Checked(rebuilt - charges[j].amount);
      if next.Err? {
        return Err(next.error), known;
      }
      rebuilt := next.value;
      j := j + 1;
    }
    assert charges[..j] == charges;
    return Ok(rebuilt), known;
  }

  class MultiLedger {
    const initialCash: i128
    const order: seq<InstrumentId>
    var cash: i128
    var ledgers: map<InstrumentId, Entry>
    var charges: seq<CashCharge>
    var identities: set<string>

    function State(): MultiState
      reads this
    {
      MultiState(initialCash, cash, order, ledgers, charges)
    }

    ghost predicate Valid()
      reads this
    {
      ValidState(State()) && identities == Identities(charges)
    }

    constructor (initialCash: i128, order: seq<InstrumentId>, ledgers: map<InstrumentId, Entry>)
      requires ListsKeys(order, ledgers)
      requires AllValid(ledgers) && forall k :: k in ledgers ==> ledgers[k].state.cash == 0
      ensures Valid() && State() == MultiState(initialCash, initialCash, order, ledgers, [])
    {
      this.initialCash, this.order, cash := initialCash, order, initialCash;
      this.ledgers, charges, identities := ledgers, [], {};
      new;
      SumOfZeros(order, ledgers);
    }

    /** Opens a ledger per configuration, or refuses the first one that is not acceptable. */
    static method Open(initialCash: i128, configs: seq<InstrumentConfig>) returns (r: Result<MultiLedger, AccountingError>)
      ensures r.Ok? ==>
        && fresh(r.value) && r.value.Valid() && r.value.cash == r.value.initialCash == initialCash >= 0
        && r.value.charges == [] && configs != []
        && |r.value.order| == |configs| && OpenedAs(configs, r.value.ledgers)
      ensures r.Ok? <==> initialCash >= 0 && configs != [] && Acceptable(configs)
      ensures initialCash < 0 ==> r == Err(InvalidModel)
      ensures initialCash >= 0 && configs == [] ==> r == Err(EmptyUniverse)
      ensures initialCash >= 0 && configs != [] && r.Err? ==> exists i :: FirstRefused(configs, i, r.error)
    {
      if initialCash < 0 {
        return Err(InvalidModel);
      }
      var all := OpenAll(configs);
      if all.Err? {
        ghost var i :| FirstRefused(configs, i, all.error);
        RefusedIsNotAcceptable(configs, i, all.error);
        return Err(all.error);
      }
      OpenedIsAcceptable(configs, all.value);
      if all.value.order == [] {
        return Err(EmptyUniverse);
      }
      var created := new MultiLedger(initialCash, all.value.order, all.value.ledgers);
      return Ok(created);
    }

    /** Takes a batch of cash charges, all or none. */
    method ApplyCashCharges(batch: seq<CashCharge>) returns (r: Result<(), AccountingError>)
      requires Valid()
      modifies this
      ensures Valid()
      ensures match ApplyCharges(old(State()), batch)
        case Ok(next) => r.Ok? && State() == next
        case Err(e) => r == Err(e) && State() == old(State())
    {
      var known, nextCash: i128 := identities, cash;
      var i := 0;
      while i < |batch|
        invariant 0 <= i <= |batch|
        invariant ChargeAll(cash, identities, batch) == ChargeAll(nextCash, known, batch[i..])
      {
        var charge := batch[i];
        assert batch[i..][1..] == batch[i + 1..];
        if charge.amount < 0 || Blank(charge.category) || Blank(charge.reference) {
          return Err(InvalidCashCharge);
        }
        if charge.identity in known {
          return Err(AccountingError.DuplicateCashCharge(charge.identity));
        }
        known := known + {charge.identity};
        nextCash :- Checked(nextCash - charge.amount);
        i := i + 1;
      }
      ChargeAllMeaning(cash, charges, batch);
      ChargesKeepValid(State(), batch);
      cash, identities, charges := nextCash, known, charges + batch;
      return Ok(());
    }

    /** Fills one instrument on a copy of its ledger, and commits only if every step succeeds. */
    method Fill(instrument: InstrumentId, fill: FillRecord) returns (r: Result<(), AccountingError>)
      requires Valid()
      modifies this
      ensures Valid()
      ensures match FillInstrument(old(State()), instrument, fill)
        case Ok(next) => r.Ok? && State() == next
        case Err(e) => r == Err(e) && State() == old(State())
    {
      if instrument !in ledgers {
        return Err(UnknownInstrument(instrument));
      }
      var entry := ledgers[instrument];
      if fill.quantity.unit != entry.quantityUnit {
        return Err(QuantityUnitMismatch(entry.quantityUnit, fill.quantity.unit));
      }
      if !Accepts(entry.pricePolicy, fill.price) {
        return Err(InvalidPriceForInstrument);
      }
      assert ValidEntry(entry);
      var next := new Ledger.Copy(entry.config, entry.state, entry.fills);
      var _ :- next.Apply(fill);
      var cashDelta :- Checked(next.cash - entry.state.cash);
      var nextCash :- Checked(cash + cashDelta);
      FillKeepsValid(State(), instrument, fill);
      ledgers := ledgers[instrument := entry.(state := next.State(), fills := next.fills)];
      cash := nextCash;
      return Ok(());
    }

    /** Rebuilds every ledger and the shared cash. Nothing reachable is inconsistent: the one
        failure is a partial sum that does not fit. */
    method Reconcile() returns (r: Result<(), AccountingError>)
      requires Valid()
      ensures r == if RebuildFits(State()) then Ok(()) else Err(Overflow)
    {
      AddAllMeaning(initialCash, order, CashOf(ledgers));
      var gross: i128 :- RebuildLedgers(initialCash, order, ledgers);
      var net, known := DeductCharges(gross, charges);
      var rebuilt :- net;
      if known != identities || rebuilt != cash {
        return Err(Reconciliation);
      }
      return Ok(());
    }

    /** The summary at the given marks, or the first error in key order. It accounts for every unit of final cash. */
    method Summarize(marks: Marks) returns (r: Result<Performance, AccountingError>)
      requires Valid()
      ensures r.Ok? <==> TotalsFit(0, charges) && AllSummable(order, ledgers, marks)
      ensures r.Err? && !TotalsFit(0, charges) ==> r.error == Overflow
      ensures r.Err? && TotalsFit(0, charges) ==>
        exists n :: FailsWith(order, n, ledgers, marks, r.error)
      ensures r.Ok? ==>
        && r.value.initialCash == initialCash && r.value.finalCash == cash && r.value.totalCharges == Total(charges)
        && r.value.columns == Columns(RealizedOf(State()), Unrealized(State(), marks), FeesPaid(State()), TaxesPaid(State()),
                                      FillsBooked(State()))
        && |r.value.instruments| == |order|
        && forall i :: 0 <= i < |order| ==> r.value.instruments[i] == PerformanceOf(order[i], ledgers[order[i]], MarkOf(marks, order[i]))
      ensures r.Ok? && (forall k :: k in ledgers ==> AcceptsMark(ledgers[k], MarkOf(marks, k))) ==>
        var columns := r.value.columns;
        r.value.finalCash + Adjustments(State(), marks)
        == r.value.initialCash + columns.realized + columns.unrealized - columns.fee - columns.tax - r.value.totalCharges
    {
      var totalCharges :- TotalCharges(charges);
      var columns :- SumColumns(order, ledgers, marks);
      var instruments := ReportAll(order, ledgers, marks);
      if forall k :: k in ledgers ==> AcceptsMark(ledgers[k], MarkOf(marks, k)) {
        SharedCashEquity(State(), marks);
      }
      return Ok(Performance(initialCash, cash, columns, totalCharges, instruments));
    }

    /** The amount that marks one open position to market. */
    method MarkToMarketAdjustment(instrument: InstrumentId, mark: i128) returns (r: Result<int, AccountingError>)
      requires Valid()
      ensures if instrument !in ledgers then r == Err(UnknownInstrument(instrument))
              else if !Accepts(ledgers[instrument].pricePolicy, mark) then r == Err(InvalidPriceForInstrument)
              else if ledgers[instrument].state.position == 0 then r == Ok(0)
              else r == MarkAdjustment(ledgers[instrument].config, ledgers[instrument].state, mark)
    {
      if instrument !in ledgers {
        return Err(UnknownInstrument(instrument));
      }
      var entry := ledgers[instrument];
      if !Accepts(entry.pricePolicy, mark) {
        return Err(InvalidPriceForInstrument);
      }
      r := MarkAdjustment(entry.config, entry.state, mark);
    }
  }

  ghost predicate Different(configs: seq<InstrumentConfig>) {
    forall i, j :: 0 <= i < j < |configs| ==> configs[i].instrument != configs[j].instrument
  }

  ghost predicate Configures(configs: seq<InstrumentConfig>, k: InstrumentId) {
    exists c :: c in configs && c.instrument == k
  }

  /** The first configuration that is refused: for itself, or because it repeats an instrument. */
  ghost predicate FirstRefused(configs: seq<InstrumentConfig>, i: nat, error: AccountingError) {
    && i < |configs| && (forall j :: 0 <= j < i ==> OpenEntry(configs[j]).Ok?) && Different(configs[..i])
    && if OpenEntry(configs[i]).Err? then error == OpenEntry(configs[i]).error
       else !Different(configs[..i + 1]) && error == DuplicateInstrument(configs[i].instrument)
  }

  /** One ledger for each configuration, and no other. */
  ghost predicate OpenedAs(configs: seq<InstrumentConfig>, ledgers: map<InstrumentId, Entry>) {
    && Different(configs)
    && (forall c :: c in configs ==> c.instrument in ledgers && OpenEntry(c) == Ok(ledgers[c.instrument]))
    && (forall k :: k in ledgers ==> Configures(configs, k))
  }

  /** Every configuration is well formed, and no two are for one instrument. */
  ghost predicate Acceptable(configs: seq<InstrumentConfig>) {
    (forall i :: 0 <= i < |configs| ==> OpenEntry(configs[i]).Ok?) && Different(configs)
  }

  lemma {:induction false} RefusedIsNotAcceptable(configs: seq<InstrumentConfig>, i: nat, error: AccountingError)
    requires FirstRefused(configs, i, error)
    ensures !Acceptable(configs)
  {
    if Different(configs) {
      assert Different(configs[..i + 1]);
    }
  }

  /** Ledgers, and their keys in order. */
  datatype Opened = Opened(order: seq<InstrumentId>, ledgers: map<InstrumentId, Entry>)

  ghost predicate OpenedSoFar(configs: seq<InstrumentConfig>, i: nat, o: Opened)
    requires i <= |configs|
  {
    |o.order| == i && ListsKeys(o.order, o.ledgers) && AllValid(o.ledgers) && OpenedAs(configs[..i], o.ledgers)
  }

  /** The ledger of one more configuration, inserted at its place in key order. */
  method OpenNext(configs: seq<InstrumentConfig>, i: nat, o: Opened) returns (r: Result<Opened, AccountingError>)
    requires i < |configs| && OpenedSoFar(configs, i, o)
    ensures r.Ok? ==> OpenedSoFar(configs, i + 1, r.value)
    ensures r.Err? ==> FirstRefused(configs, i, r.error)
  {
    AllOpened(configs, i, o.ledgers);
    var entry :- OpenEntry(configs[i]);
    var instrument := configs[i].instrument;
    OpenedNext(configs, i, o.ledgers, entry);
    if instrument in o.ledgers {
      return Err(DuplicateInstrument(instrument));
    }
    InstrumentsAreOrdered();
    var inserted := Insert(instrument, o.order, AtOrBefore);
    InsertLists(o.order, inserted, o.ledgers, instrument, entry);
    return Ok(Opened(inserted, o.ledgers[instrument := entry]));
  }

  lemma {:induction false} NothingOpened(configs: seq<InstrumentConfig>)
    ensures OpenedSoFar(configs, 0, Opened([], map[]))
  {
  }

  lemma {:induction false} OpenedIsAcceptable(configs: seq<InstrumentConfig>, o: Opened)
    requires OpenedSoFar(configs, |configs|, o)
    ensures Acceptable(configs) && OpenedAs(configs, o.ledgers)
  {
    AllOpened(configs, |configs|, o.ledgers);
    assert configs[..|configs|] == configs;
  }

  method OpenAll(configs: seq<InstrumentConfig>) returns (r: Result<Opened, AccountingError>)
    ensures r.Ok? ==> OpenedSoFar(configs, |configs|, r.value)
    ensures r.Err? ==> exists i :: FirstRefused(configs, i, r.error)
  {
    var o := Opened([], map[]);
    var i := 0;
    NothingOpened(configs);
    while i < |configs|
      invariant 0 <= i <= |configs|
      // Compared with `true`, the predicate is not unfolded for every iteration.
      invariant OpenedSoFar(configs, i, o) == true
    {
      var next :- OpenNext(configs, i, o);
      o, i := next, i + 1;
    }
    return Ok(o);
  }

  lemma {:induction false} AllOpened(configs: seq<InstrumentConfig>, i: nat, ledgers: map<InstrumentId, Entry>)
    requires i <= |configs| && OpenedAs(configs[..i], ledgers)
    ensures forall j :: 0 <= j < i ==> OpenEntry(configs[j]).Ok?
  {
    forall j | 0 <= j < i ensures OpenEntry(configs[j]).Ok? {
      assert configs[..i][j] in configs[..i];
    }
  }

  lemma {:induction false} OpenedNext(configs: seq<InstrumentConfig>, i: nat, ledgers: map<InstrumentId, Entry>, entry: Entry)
    requires i < |configs| && OpenedAs(configs[..i], ledgers) && OpenEntry(configs[i]) == Ok(entry)
    ensures if configs[i].instrument in ledgers then !Different(configs) && !Different(configs[..i + 1])
            else OpenedAs(configs[..i + 1], ledgers[configs[i].instrument := entry])
  {
    var before, k := configs[..i], configs[i].instrument;
    assert configs[..i + 1] == before + [configs[i]];
    if k in ledgers {
      assert Configures(before, k);
      var c :| c in before && c.instrument == k;
      var j :| 0 <= j < i && before[j] == c;
      assert configs[j].instrument == configs[i].instrument;
      assert configs[..i + 1][j].instrument == configs[..i + 1][i].instrument;
    } else {
      DifferentNext(before, configs[i]);
      forall l ensures l in ledgers[k := entry] ==> Configures(before + [configs[i]], l) {
        if l in ledgers {
          assert Configures(before, l);
          var c :| c in before && c.instrument == l;
          assert c in before + [configs[i]];
        } else if l == k {
          assert configs[i] in before + [configs[i]];
        }
      }
    }
  }

  lemma {:induction false} DifferentNext(before: seq<InstrumentConfig>, c: InstrumentConfig)
    requires Different(before) && forall b :: b in before ==> b.instrument != c.instrument
    ensures Different(before + [c])
  {
  }

  lemma {:induction false} InsertLists(order: seq<InstrumentId>, inserted: seq<InstrumentId>, ledgers: map<InstrumentId, Entry>,
                                       instrument: InstrumentId, entry: Entry)
    requires ListsKeys(order, ledgers) && instrument !in ledgers && Sorted(inserted, AtOrBefore)
    requires multiset(inserted) == multiset(order) + multiset{instrument}
    ensures ListsKeys(inserted, ledgers[instrument := entry]) && |inserted| == |order| + 1
  {
    assert |multiset(inserted)| == |inserted| && |multiset(order)| == |order|;
    forall k ensures k in inserted <==> k in order || k == instrument {
      assert k in inserted <==> k in multiset(inserted);
    }
    forall i, j | 0 <= i < j < |inserted| ensures inserted[i] != inserted[j] {
      if inserted[i] == inserted[j] {
        TwiceInMultiset(inserted, i, j);
        OnceInMultiset(order, inserted[i]);
      }
    }
  }

  lemma {:induction false} TwiceInMultiset<T>(s: seq<T>, i: nat, j: nat)
    requires i < j < |s| && s[i] == s[j]
    ensures multiset(s)[s[i]] >= 2
  {
    assert s == s[..j] + s[j..];
    assert s[i] == s[..j][i] && s[j] == s[j..][0];
    assert s[i] in multiset(s[..j]) && s[i] in multiset(s[j..]);
  }

  lemma {:induction false} OnceInMultiset<T>(s: seq<T>, x: T)
    requires forall i, j :: 0 <= i < j < |s| ==> s[i] != s[j]
    ensures multiset(s)[x] <= 1
  {
    if s != [] {
      assert s == [s[0]] + s[1..];
      OnceInMultiset(s[1..], x);
      if x == s[0] {
        assert x !in s[1..];
      }
    }
  }

  lemma {:induction false} SumOfZeros(order: seq<InstrumentId>, ledgers: map<InstrumentId, Entry>)
    requires forall k :: k in ledgers ==> ledgers[k].state.cash == 0
    ensures Sum(order, CashOf(ledgers)) == 0
  {
    if order != [] {
      SumOfZeros(order[1..], ledgers);
    }
  }
}
