/** What a fill and a batch of charges do to many instruments over one cash pool, errors included. */
module MultiLedgerEffects {
  import opened Wrappers
  import opened MachineIntegers
  import opened MarketTypes
  import opened AccountingErrors
  import opened ExactArithmetic
  import opened LedgerModel
  import opened MultiLedgerModel
  import opened MultiLedgers

  /** A fill's problem, before its ledger sees it. */
  function FillProblem(s: MultiState, instrument: InstrumentId, fill: FillRecord): Option<AccountingError> {
    if instrument !in s.ledgers then Some(UnknownInstrument(instrument))
    else if s.ledgers[instrument].quantityUnit != fill.quantity.unit
    then Some(QuantityUnitMismatch(s.ledgers[instrument].quantityUnit, fill.quantity.unit))
    else if s.ledgers[instrument].pricePolicy == PositiveOnly && fill.price <= 0 then Some(InvalidPriceForInstrument)
    else None
  }

  /** A fill goes to the ledger of its instrument and to no other; the shared cash moves as the ledger's does, and must fit. */
  lemma {:induction false} FillInstrumentExactly(s: MultiState, instrument: InstrumentId, fill: FillRecord)
    ensures var r, problem := FillInstrument(s, instrument, fill), FillProblem(s, instrument, fill);
      if problem.Some? then r == Err(problem.value)
      else
        var entry := s.ledgers[instrument];
        match ApplyFill(EffectsOf(entry.config), entry.state, fill)
        case Err(e) => r == Err(e)
        case Ok(next) =>
          var moved := next.cash - entry.state.cash;
          if !IsI128(moved) || !IsI128(s.cash + moved) then r == Err(Overflow)
          else
            && r.Ok?
            && r.value.initialCash == s.initialCash && r.value.cash == s.cash + moved && r.value.order == s.order && r.value.charges == s.charges
            && r.value.ledgers.Keys == s.ledgers.Keys
            && (forall k :: k in s.ledgers && k != instrument ==> r.value.ledgers[k] == s.ledgers[k])
            && r.value.ledgers[instrument].state == next && r.value.ledgers[instrument].fills == entry.fills + [fill]
            && r.value.ledgers[instrument].config == entry.config
  {
  }

  /** The first `i` charges can be taken, and the next has this problem: its amount or a blank text, an identity that was
      charged before, or a balance that does not fit. */
  ghost predicate ChargeFails(cash: int, paid: seq<CashCharge>, charges: seq<CashCharge>, i: nat, error: AccountingError) {
    && i < |charges|
    && (forall j :: 0 <= j < i ==> ProperCashCharge(charges[j]))
    && DistinctIdentities(paid + charges[..i]) && BalancesFit(cash, charges[..i])
    && var c := charges[i];
       if !ProperCashCharge(c) then error == InvalidCashCharge
       else if exists j :: 0 <= j < |paid + charges[..i]| && (paid + charges[..i])[j].identity == c.identity
       then error == AccountingError.DuplicateCashCharge(c.identity)
       else error == Overflow && cash - Total(charges[..i]) - c.amount < I128_MIN
  }

  /** Not negative, and with something but white space in both of its texts. */
  ghost predicate ProperCashCharge(c: CashCharge) {
    && c.amount >= 0 && (exists i :: 0 <= i < |c.category| && !IsSpace(c.category[i]))
    && (exists i :: 0 <= i < |c.reference| && !IsSpace(c.reference[i]))
  }

  lemma {:induction false} ProperExactly(c: CashCharge)
    ensures ValidCashCharge(c) <==> ProperCashCharge(c)
  {
    NotBlank(c.category);
    NotBlank(c.reference);
  }

  lemma {:induction false} NotBlank(s: string)
    ensures Blank(s) <==> !exists i :: 0 <= i < |s| && !IsSpace(s[i])
  {
    if !Blank(s) {
      var c :| c in s && !IsSpace(c);
      var i :| 0 <= i < |s| && s[i] == c;
      assert !IsSpace(s[i]);
    }
    forall i | 0 <= i < |s| && !IsSpace(s[i]) ensures !Blank(s) {
      assert s[i] in s;
    }
  }

  /** A batch of charges is refused for its first charge that cannot be taken. */
  lemma {:induction false} ChargesFailFirst(cash: i128, paid: seq<CashCharge>, charges: seq<CashCharge>)
    requires DistinctIdentities(paid) && ChargeAll(cash, Identities(paid), charges).Err?
    ensures exists i :: ChargeFails(cash, paid, charges, i, ChargeAll(cash, Identities(paid), charges).error)
    decreases charges
  {
    var c, rest := charges[0], charges[1..];
    var error := ChargeAll(cash, Identities(paid), charges).error;
    ProperExactly(c);
    NextIdentity(paid, c, rest);
    if ProperCashCharge(c) && c.identity !in Identities(paid) && IsI128(cash - c.amount) {
      ChargesFailFirst(cash - c.amount, paid + [c], rest);
      var i :| ChargeFails(cash - c.amount, paid + [c], rest, i, error);
      LaterFails(cash, paid, charges, i, error);
    } else {
      FirstFails(cash, paid, charges, error);
    }
  }

  lemma {:induction false} FirstFails(cash: i128, paid: seq<CashCharge>, charges: seq<CashCharge>, error: AccountingError)
    requires charges != [] && DistinctIdentities(paid) && ChargeAll(cash, Identities(paid), charges) == Err(error)
    requires var c := charges[0]; !ProperCashCharge(c) || c.identity in Identities(paid) || !IsI128(cash - c.amount)
    ensures ChargeFails(cash, paid, charges, 0, error)
  {
    var c := charges[0];
    ProperExactly(c);
    assert charges[..0] == [] && paid + [] == paid;
    if c.identity in Identities(paid) {
      var j :| 0 <= j < |paid| && paid[j].identity == c.identity;
      assert (paid + charges[..0])[j].identity == c.identity;
    } else {
      assert forall j :: 0 <= j < |paid| ==> paid[j].identity in Identities(paid);
    }
  }

  lemma {:induction false} LaterFails(cash: i128, paid: seq<CashCharge>, charges: seq<CashCharge>, i: nat, error: AccountingError)
    requires charges != [] && ProperCashCharge(charges[0]) && IsI128(cash - charges[0].amount)
    requires ChargeFails(cash - charges[0].amount, paid + [charges[0]], charges[1..], i, error)
    ensures ChargeFails(cash, paid, charges, i + 1, error)
  {
    var c, rest := charges[0], charges[1..];
    assert charges[..i + 1] == [c] + rest[..i] && charges[i + 1] == rest[i];
    assert charges[..i + 1][1..] == rest[..i];
    assert paid + charges[..i + 1] == paid + [c] + rest[..i];
    forall j | 0 <= j < i + 1 ensures ProperCashCharge(charges[j]) {
      if j > 0 {
        assert charges[j] == rest[j - 1];
      }
    }
  }

  // -------------------------------------------------------------------- summaries

  /** What the ledgers of some instruments hold together. */
  datatype Held = Held(realized: int, unrealized: int, fee: int, tax: int, fills: int)

  function HeldBy(order: seq<InstrumentId>, ledgers: map<InstrumentId, Entry>, marks: Marks): Held
    requires forall k :: k in order ==> k in ledgers
  {
    if order == [] then Held(0, 0, 0, 0, 0) else
    var s, rest := ledgers[order[0]].state, HeldBy(order[1..], ledgers, marks);
    Held(s.realized + rest.realized, ResultAt(ledgers[order[0]], order[0], marks) + rest.unrealized, s.totalFee + rest.fee,
         s.totalTax + rest.tax, |ledgers[order[0]].fills| + rest.fills)
  }

  /** The unrealized result at the instrument's mark, if it has one. */
  function ResultAt(entry: Entry, k: InstrumentId, marks: Marks): int {
    var pnl := UnrealizedPnl(entry.config, entry.state, if k in marks then marks[k] else None);
    if pnl.Ok? && pnl.value.Some? then pnl.value.value else 0
  }

  lemma {:induction false} MarkExactly(k: InstrumentId, marks: Marks)
    ensures MarkOf(marks, k) == if k in marks then marks[k] else None
  {
  }

  /** Each column of a summary adds up its own amounts. */
  lemma {:induction false} ColumnsExactly(order: seq<InstrumentId>, ledgers: map<InstrumentId, Entry>, marks: Marks)
    requires forall k :: k in order ==> k in ledgers
    ensures var c, held := ColumnsOf(order, ledgers, marks), HeldBy(order, ledgers, marks);
      c.realized == held.realized && c.unrealized == held.unrealized && c.fee == held.fee && c.tax == held.tax && c.fills == held.fills
  {
    if order != [] {
      var k := order[0];
      assert k in ledgers;
      ColumnsExactly(order[1..], ledgers, marks);
      MarkExactly(k, marks);
      assert Marked(ledgers, marks, UnrealizedOf)(k) == UnrealizedOf(ledgers[k], MarkOf(marks, k)) == ResultAt(ledgers[k], k, marks);
      assert Each(ledgers, EntryRealized)(k) == ledgers[k].state.realized && Each(ledgers, EntryFee)(k) == ledgers[k].state.totalFee;
      assert Each(ledgers, EntryTax)(k) == ledgers[k].state.totalTax && Each(ledgers, EntryFills)(k) == |ledgers[k].fills|;
    }
  }

  /** And each instrument is reported with its own. */
  lemma {:induction false} ReportExactly(k: InstrumentId, entry: Entry, marks: Marks)
    ensures var p, s := PerformanceOf(k, entry, MarkOf(marks, k)), entry.state;
      && p.instrument == k && p.quantityUnit == entry.quantityUnit && p.model == entry.model && p.economics == entry.config.economics
      && p.averageCost == s.averageCost && p.finalCash == s.cash && p.position == s.position && p.realized == s.realized
      && p.unrealized == ResultAt(entry, k, marks) && p.totalFee == s.totalFee && p.totalTax == s.totalTax && p.fillCount == |entry.fills|
  {
  }
}
