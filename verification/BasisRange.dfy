/** Which ranges of prices the average cost can leave, and a run that leaves each of the others. */
module BasisRange {
  import opened Wrappers
  import opened MachineIntegers
  import opened MarketTypes
  import opened ExactArithmetic
  import opened PositionAccounting
  import opened DayTradeTax
  import opened LedgerModel

  /** In every run of every ledger at prices of the range, the average cost stays in the range. */
  ghost predicate KeptByEveryRun(lo: int, hi: int) {
    forall config, fills :: Kept(config, fills, lo, hi)
  }

  ghost predicate Kept(config: LedgerConfig, fills: seq<FillRecord>, lo: int, hi: int) {
    var r := Replay(config, fills);
    r.Ok? && PricesWithin(fills, lo, hi) ==> BasisWithin(lo, hi, r.value.basis, r.value.position)
  }

  // ----------------------------------------------------- a futures ledger without costs

  const Free := ChargeModel(NotionalRate, 0, BothSides, 0, 0, Down)
  const Spread := Economics(1, SCALE, "spread")
  const SpreadLedger := LedgerConfig(0, Spread, Free, Free, FuturesV1, None)

  function One(price: i128, side: OrderSide): FillRecord {
    FillRecord("", Control(0), 0, side, price, Quantity(1, Contract))
  }

  lemma {:induction false} CostsNothing(notional: int, side: OrderSide)
    requires IsI128(Abs(notional))
    ensures Charge(notional, 1, side, Free) == Ok(0)
  {
    ChargeRefinesDirectForm(notional, 1, side, Free);
    var base := ChargedBase(notional, 1, Free);
    assert base * Free.rate == 0;
    var atoms, units :| Rounds(Down, base * Free.rate, SCALE, atoms) && Rounds(Down, atoms, Quantum(Free), units)
      && Charge(notional, 1, side, Free).value == Max(units * Quantum(Free), 0);
    RoundsUnique(Down, 0, SCALE, atoms, 0);
    RoundsUnique(Down, 0, Quantum(Free), units, 0);
  }

  lemma {:induction false} UnitValue(value: i128)
    ensures ScaleByQuantity(value, 1, Spread) == Ok(value)
  {
    Divides(value * SCALE, SCALE, value, 0);
    MultiplyDecimalAtomsExact(value, SCALE);
  }

  /** What one unit does to that ledger. */
  function Moved(s: LedgerState, fill: FillRecord, t: Transition): LedgerState
    requires IsI128(s.cash + t.realized) && IsI128(s.realized + t.realized)
  {
    s.(cash := s.cash + t.realized, position := t.position, basis := t.basis, averageCost := t.averageCost,
       realized := s.realized + t.realized, fillCosts := s.fillCosts + [FillCost(fill.orderId, 0, 0)])
  }

  lemma {:induction false} UnitFill(s: LedgerState, fill: FillRecord, t: Transition)
    requires fill.quantity.value == 1 && IsI128(Abs(fill.price)) && IsI128(s.cash + t.realized) && IsI128(s.realized + t.realized)
    requires TransitionPosition(s.position, s.basis, SignedQuantity(fill), fill.price, Spread) == Ok(t)
    ensures ApplyFill(EffectsOf(SpreadLedger), s, fill) == Ok(Moved(s, fill, t))
  {
    UnitEffect(s, fill, t);
  }

  lemma {:induction false} UnitEffect(s: LedgerState, fill: FillRecord, t: Transition)
    requires fill.quantity.value == 1 && IsI128(Abs(fill.price))
    requires TransitionPosition(s.position, s.basis, SignedQuantity(fill), fill.price, Spread) == Ok(t)
    ensures EffectOf(SpreadLedger, s, fill) == Ok(FillEffect(t.realized, 0, TaxOutcome(0, s.buys, s.sells), t))
  {
    UnitValue(fill.price);
    CostsNothing(fill.price, fill.side);
    assert AcceptsFills(SpreadLedger);
  }

  lemma {:induction false} ReplayNext(config: LedgerConfig, fills: seq<FillRecord>, s: LedgerState, fill: FillRecord, t: LedgerState)
    requires Replay(config, fills) == Ok(s) && ApplyFill(EffectsOf(config), s, fill) == Ok(t)
    ensures Replay(config, fills + [fill]) == Ok(t)
  {
    assert (fills + [fill])[..|fills|] == fills;
  }

  lemma {:induction false} UnitNext(fills: seq<FillRecord>, s: LedgerState, fill: FillRecord, t: Transition) returns (next: LedgerState)
    requires Replay(SpreadLedger, fills) == Ok(s)
    requires fill.quantity.value == 1 && IsI128(Abs(fill.price)) && IsI128(s.cash + t.realized) && IsI128(s.realized + t.realized)
    requires TransitionPosition(s.position, s.basis, SignedQuantity(fill), fill.price, Spread) == Ok(t)
    ensures Replay(SpreadLedger, fills + [fill]) == Ok(next)
    ensures next.position == t.position && next.basis == t.basis
    ensures next.cash == s.cash + t.realized && next.realized == s.realized + t.realized
  {
    next := Moved(s, fill, t);
    UnitFill(s, fill, t);
    ReplayNext(SpreadLedger, fills, s, fill, next);
  }

  // ------------------------------------------------------------- main results

  /** One unit bought at `lo`, one at the next price, and one sold at `lo`. */
  function Escape(lo: int): seq<FillRecord>
    requires I128_MIN <= 2 * lo + 1 && lo < 0
  {
    [One(lo, Buy), One(lo + 1, Buy), One(lo, Sell)]
  }

  lemma {:induction false} EscapeMoves(lo: int)
    requires I128_MIN <= 2 * lo + 1 && lo < 0
    ensures TransitionPosition(0, 0, 1, lo, Spread) == Ok(Transition(1, lo, Some(lo), 0))
    ensures TransitionPosition(1, lo, 1, lo + 1, Spread) == Ok(Transition(2, 2 * lo + 1, Some(lo + 2), 0))
    ensures TransitionPosition(2, 2 * lo + 1, -1, lo, Spread) == Ok(Transition(1, lo - 1, Some(lo - 1), -2))
  {
    FirstMove(lo);
    SecondMove(lo);
    ThirdMove(lo);
  }

  lemma {:induction false} FirstMove(lo: int)
    requires I128_MIN <= 2 * lo + 1 && lo < 0
    ensures TransitionPosition(0, 0, 1, lo, Spread) == Ok(Transition(1, lo, Some(lo), 0))
  {
    WholeUnit(lo);
  }

  lemma {:induction false} SecondMove(lo: int)
    requires I128_MIN <= 2 * lo + 1 && lo < 0
    ensures TransitionPosition(1, lo, 1, lo + 1, Spread) == Ok(Transition(2, 2 * lo + 1, Some(lo + 2), 0))
  {
    HalfOf(lo);
  }

  lemma {:induction false} ThirdMove(lo: int)
    requires I128_MIN <= 2 * lo + 1 && lo < 0
    ensures TransitionPosition(2, 2 * lo + 1, -1, lo, Spread) == Ok(Transition(1, lo - 1, Some(lo - 1), -2))
  {
    NegativePriceBasisEscapes(lo, 0);
    WholeUnit(lo - 1);
    UnitValue(-2);
    ReducesLong(2, 2 * lo + 1, 1, lo, Spread, lo + 2, -2, lo - 1);
  }

  /** Part of a long position sold, from its parts. */
  lemma {:induction false} ReducesLong(position: i128, basis: i128, closed: i128, price: i128, e: Economics, share: i128, realized: i128,
                                       average: int)
    requires 0 < closed < position && AllocatedBasis(basis, closed, position) == Ok(share)
    requires IsI128(price * closed) && IsI128(price * closed - share) && ScaleByQuantity(price * closed - share, 1, e) == Ok(realized)
    requires IsI128(basis - share) && DivideRound(basis - share, position - closed, HalfUp) == Ok(average)
    ensures TransitionPosition(position, basis, -closed, price, e)
         == Ok(Transition(position - closed, basis - share, Some(average), realized))
  {
  }

  lemma {:induction false} HalfOf(lo: int)
    requires I128_MIN <= 2 * lo + 1 && lo < 0
    ensures DivideRound(2 * lo + 1, 2, HalfUp) == Ok(lo + 2)
  {
    Divides(-(2 * lo + 1), 2, -lo - 1, 1);
    assert TruncDiv(2 * lo + 1, 2) == lo + 1 && TruncRem(2 * lo + 1, 2) == -1;
  }

  lemma {:induction false} WholeUnit(basis: int)
    requires basis < 0
    ensures DivideRound(basis, 1, HalfUp) == Ok(basis)
  {
    Divides(-basis, 1, -basis, 0);
  }

  lemma {:induction false} EscapeFills(lo: int)
    requires I128_MIN <= 2 * lo + 1 && lo < 0
    ensures var fills := Escape(lo);
      && |fills| == 3 && (forall i :: 0 <= i < 3 ==> fills[i].quantity.value == 1 && IsI128(Abs(fills[i].price)))
      && SignedQuantity(fills[0]) == 1 && fills[0].price == lo && SignedQuantity(fills[1]) == 1 && fills[1].price == lo + 1
      && SignedQuantity(fills[2]) == -1 && fills[2].price == lo
  {
  }

  lemma {:induction false} EscapeRuns(lo: int)
    requires I128_MIN <= 2 * lo + 1 && lo < 0
    ensures var r := Replay(SpreadLedger, Escape(lo)); r.Ok? && r.value.position == 1 && r.value.basis == lo - 1
  {
    EscapeMoves(lo);
    EscapeFills(lo);
    ThreeFills(Escape(lo), Transition(1, lo, Some(lo), 0), Transition(2, 2 * lo + 1, Some(lo + 2), 0), Transition(1, lo - 1, Some(lo - 1), -2));
  }

  lemma {:induction false} ThreeFills(fills: seq<FillRecord>, t1: Transition, t2: Transition, t3: Transition)
    requires |fills| == 3 && forall i :: 0 <= i < 3 ==> fills[i].quantity.value == 1 && IsI128(Abs(fills[i].price))
    requires t1.realized == t2.realized == 0
    requires TransitionPosition(0, 0, SignedQuantity(fills[0]), fills[0].price, Spread) == Ok(t1)
    requires TransitionPosition(t1.position, t1.basis, SignedQuantity(fills[1]), fills[1].price, Spread) == Ok(t2)
    requires TransitionPosition(t2.position, t2.basis, SignedQuantity(fills[2]), fills[2].price, Spread) == Ok(t3)
    ensures var r := Replay(SpreadLedger, fills); r.Ok? && r.value.position == t3.position && r.value.basis == t3.basis
  {
    assert fills[..1] == [] + [fills[0]] && fills[..2] == fills[..1] + [fills[1]] && fills == fills[..2] + [fills[2]];
    var s1 := UnitNext([], Opening(SpreadLedger), fills[0], t1);
    var s2 := UnitNext(fills[..1], s1, fills[1], t2);
    var s3 := UnitNext(fills[..2], s2, fills[2], t3);
  }

  /** The average cost stays within every range of prices that holds no negative price, only one price, or
      a lowest price of which two units do not fit; and it leaves every other range in three fills. */
  lemma {:induction false} BasisRangeExactly(lo: int, hi: int)
    requires lo <= hi
    ensures KeptByEveryRun(lo, hi) <==> RangeIsKept(lo, hi)
  {
    if RangeIsKept(lo, hi) {
      forall config, fills ensures Kept(config, fills, lo, hi) {
        var r := Replay(config, fills);
        if r.Ok? && PricesWithin(fills, lo, hi) {
          BasisStaysWithinTradedPrices(config, fills, r.value, lo, hi);
        }
      }
    } else {
      EscapeRuns(lo);
      assert !Kept(SpreadLedger, Escape(lo), lo, hi);
    }
  }
}
