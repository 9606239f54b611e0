/** One instrument's economics, and how a fill moves its position, cost basis and realized result. */
module PositionAccounting {
  import opened Wrappers
  import opened MachineIntegers
  import opened AccountingErrors
  import opened ExactArithmetic

  datatype Economics = Economics(units: u64, multiplier: i128, provenance: string)

  predicate ValidEconomics(e: Economics) {
    e.units > 0 && e.multiplier > 0 && e.provenance != ""
  }

  /** Atoms of cash per atom of price and unit of quantity, times 10^18. */
  function Weight(e: Economics): int {
    e.multiplier * e.units
  }

  function ScaleByQuantity(value: int, quantity: nat, e: Economics): Result<i128, AccountingError> {
    var scaled :- MultiplyDecimalAtoms(value, e.multiplier);
    var product :- Checked(scaled * quantity);
    Checked(product * e.units)
  }

  /** A scaled value is exact: no precision is lost on the way to cash. */
  lemma {:induction false} ScaleByQuantityExact(value: int, quantity: nat, e: Economics)
    ensures var r := ScaleByQuantity(value, quantity, e);
      r.Ok? ==> SCALE * r.value == value * quantity * Weight(e)
  {
    MultiplyDecimalAtomsExact(value, e.multiplier);
    var scaled := MultiplyDecimalAtoms(value, e.multiplier);
    if scaled.Ok? {
      ScaleChain(value, e.multiplier, scaled.value, quantity, e.units);
    }
  }

  /** A difference of prices can be paid in cash: it is a whole number of atoms, in range on the way. */
  predicate Payable(value: int, e: Economics) {
    var product := value * e.multiplier;
    product % SCALE == 0 && IsI128(product / SCALE) && IsI128(product / SCALE * e.units)
  }

  lemma {:induction false} PayableExactly(value: int, e: Economics)
    ensures var r := ScaleByQuantity(value, 1, e);
      && (r.Ok? <==> Payable(value, e))
      && (r.Ok? ==> SCALE * r.value == value * Weight(e) && r.value == value * e.multiplier / SCALE * e.units)
      && (r.Err? ==> r.error == Overflow || (r.error == PrecisionLoss && (value * e.multiplier) % SCALE != 0))
  {
    MultiplyDecimalAtomsExact(value, e.multiplier);
    ScaleByQuantityExact(value, 1, e);
    var scaled := MultiplyDecimalAtoms(value, e.multiplier);
    if scaled.Ok? {
      Divides(value * e.multiplier, SCALE, scaled.value, 0);
    }
  }

  lemma {:induction false} ScaleChain(value: int, multiplier: int, scaled: int, quantity: int, units: int)
    requires SCALE * scaled == value * multiplier
    ensures SCALE * ((scaled * quantity) * units) == value * quantity * (multiplier * units)
  {
    var s := SCALE;
    Regroup(s, scaled, quantity, units);
    Regroup(value, multiplier, quantity, units);
    assert s * ((scaled * quantity) * units) == (s * scaled) * (quantity * units);
  }

  datatype Transition = Transition(position: i128, basis: i128, averageCost: Option<int>, realized: i128)

  function AverageCost(basis: int, position: int): Result<Option<int>, AccountingError> {
    if position == 0 then Ok(None) else
    var divisor :- Checked(Abs(position));
    var average :- DivideRound(basis, divisor, HalfUp);
    Ok(Some(average))
  }

  /** The part of the basis that `closed` of `size` units take with them. */
  function AllocatedBasis(basis: int, closed: nat, size: nat): Result<int, AccountingError>
    requires 0 < size <= I128_MAX
  {
    if closed == size then Ok(basis) else
    var numerator :- Checked(basis * closed);
    DivideRound(numerator, size, HalfUp)
  }

  function TransitionPosition(position: int, basis: int, delta: int, price: int, e: Economics):
    Result<Transition, AccountingError>
  {
    var next :- Checked(position + delta);
    if position == 0 || Sign(position) == Sign(delta) then
      var added :- Checked(price * Abs(delta));
      var nextBasis :- Checked(basis + added);
      var average :- AverageCost(nextBasis, next);
      Ok(Transition(next, nextBasis, average, 0))
    else
      var size :- Checked(Abs(position));
      var closed := Min(size, Abs(delta));
      var share :- AllocatedBasis(basis, closed, size);
      var closedValue :- Checked(price * closed);
      var difference :- Checked(if position > 0 then closedValue - share else share - closedValue);
      var realized :- ScaleByQuantity(difference, 1, e);
      var nextBasis :- if next == 0 then Ok(0)
                       else if Sign(next) != Sign(position) then Checked(price * Abs(next))
                       else Checked(basis - share);
      var average :- AverageCost(nextBasis, next);
      Ok(Transition(next, nextBasis, average, realized))
  }

  /** What a fill against the position does with a given share of its basis. */
  ghost predicate Closes(position: int, basis: int, delta: int, price: int, e: Economics, share: int, t: Transition) {
    var closed := Min(Abs(position), Abs(delta));
    && Reduces(position, basis, delta, price, share, t.basis)
    && ScaleByQuantity(if position > 0 then price * closed - share else share - price * closed, 1, e) == Ok(t.realized)
  }

  ghost predicate Reduces(position: int, basis: int, delta: int, price: int, share: int, nextBasis: int) {
    var next, closed := position + delta, Min(Abs(position), Abs(delta));
    && position != 0 && delta != 0 && Sign(position) != Sign(delta) && Abs(position) <= I128_MAX
    && AllocatedBasis(basis, closed, Abs(position)) == Ok(share)
    && nextBasis == (if next == 0 then 0 else if Sign(next) != Sign(position) then price * Abs(next) else basis - share)
  }

  ghost predicate Opens(position: int, basis: int, delta: int, price: int, t: Transition) {
    (position == 0 || Sign(position) == Sign(delta)) && t.basis == basis + price * Abs(delta) && t.realized == 0
  }

  lemma {:induction false} TransitionShape(position: int, basis: int, delta: int, price: int, e: Economics) returns (share: int)
    requires delta != 0 && TransitionPosition(position, basis, delta, price, e).Ok?
    ensures var t := TransitionPosition(position, basis, delta, price, e).value;
      && t.position == position + delta
      && AverageCost(t.basis, t.position) == Ok(t.averageCost)
      && (Opens(position, basis, delta, price, t) || Closes(position, basis, delta, price, e, share, t))
  {
    share := 0;
    if position == 0 || Sign(position) == Sign(delta) {
      OpeningShape(position, basis, delta, price, e);
    } else {
      share := ClosingShape(position, basis, delta, price, e);
    }
  }

  lemma {:induction false} OpeningShape(position: int, basis: int, delta: int, price: int, e: Economics)
    requires TransitionPosition(position, basis, delta, price, e).Ok? && (position == 0 || Sign(position) == Sign(delta))
    ensures var t := TransitionPosition(position, basis, delta, price, e).value;
      t.position == position + delta && AverageCost(t.basis, t.position) == Ok(t.averageCost) && Opens(position, basis, delta, price, t)
  {
  }

  lemma {:induction false} ClosingShape(position: int, basis: int, delta: int, price: int, e: Economics) returns (share: int)
    requires TransitionPosition(position, basis, delta, price, e).Ok? && delta != 0 && position != 0 && Sign(position) != Sign(delta)
    ensures var t := TransitionPosition(position, basis, delta, price, e).value;
      && t.position == position + delta && AverageCost(t.basis, t.position) == Ok(t.averageCost)
      && Closes(position, basis, delta, price, e, share, t)
  {
    share := AllocatedBasis(basis, Min(Abs(position), Abs(delta)), Abs(position)).value;
  }

  /** What was realized and what is left in the signed basis, together, are exactly what was
      there and what was paid. */
  ghost predicate Conserves(position: int, basis: int, delta: int, price: int, e: Economics, t: Transition) {
    SCALE * t.realized == (Sign(position + delta) * t.basis - Sign(position) * basis - delta * price) * Weight(e)
  }

  /** No rounding of the basis is ever lost: every transition conserves. */
  lemma {:induction false} TransitionConserves(position: int, basis: int, delta: int, price: int, e: Economics)
    requires position == 0 ==> basis == 0
    requires delta != 0
    ensures var r := TransitionPosition(position, basis, delta, price, e);
      r.Ok? ==>
        && r.value.position == position + delta
        && (r.value.position == 0 ==> r.value.basis == 0 && r.value.averageCost == None)
        && Conserves(position, basis, delta, price, e, r.value)
  {
    var r := TransitionPosition(position, basis, delta, price, e);
    if r.Ok? {
      var share := TransitionShape(position, basis, delta, price, e);
      ShapeConserves(position, basis, delta, price, e, share, r.value);
    }
  }

  lemma {:induction false} ShapeConserves(position: int, basis: int, delta: int, price: int, e: Economics, share: int, t: Transition)
    requires position == 0 ==> basis == 0
    requires delta != 0
    requires Opens(position, basis, delta, price, t) || Closes(position, basis, delta, price, e, share, t)
    ensures Conserves(position, basis, delta, price, e, t)
    ensures position + delta == 0 ==> t.basis == 0
  {
    if Opens(position, basis, delta, price, t) {
      OpeningFlow(position, basis, delta, price);
    } else {
      var closed := Min(Abs(position), Abs(delta));
      ScaleByQuantityExact(if position > 0 then price * closed - share else share - price * closed, 1, e);
      ClosingFlow(position, basis, delta, price, share, t.basis);
    }
  }

  lemma {:induction false} OpeningFlow(position: int, basis: int, delta: int, price: int)
    requires delta != 0 && (position == 0 || Sign(position) == Sign(delta))
    requires position == 0 ==> basis == 0
    ensures Sign(position + delta) * (basis + price * Abs(delta)) - Sign(position) * basis - delta * price == 0
  {
    assert delta * price == price * delta && price * -delta == -(price * delta);
  }

  lemma {:induction false} ClosingFlow(position: int, basis: int, delta: int, price: int, share: int, nextBasis: int)
    requires position != 0 && delta != 0 && Sign(position) != Sign(delta)
    requires var next, closed := position + delta, Min(Abs(position), Abs(delta));
      && (closed == Abs(position) ==> share == basis)
      && nextBasis == (if next == 0 then 0 else if Sign(next) != Sign(position) then price * Abs(next) else basis - share)
    ensures var closed := Min(Abs(position), Abs(delta));
      (if position > 0 then price * closed - share else share - price * closed)
      == Sign(position + delta) * nextBasis - Sign(position) * basis - delta * price
  {
    var next := position + delta;
    assert delta * price == price * delta;
    assert price * -delta == -(price * delta) && price * -position == -(price * position);
    assert price * next == price * position + price * delta && price * -next == -(price * next);
  }

  // ------------------------------------------------------- basis stays in range

  ghost predicate BasisWithin(lo: int, hi: int, basis: int, position: int) {
    lo * Abs(position) <= basis <= hi * Abs(position)
  }

  /** When rounding keeps the average cost in a range of prices: none is negative, all are the same, or two
      units at the lowest would not fit 128 bits. */
  predicate RangeIsKept(lo: int, hi: int) {
    lo >= 0 || lo == hi || 2 * lo + 1 < I128_MIN
  }

  /** Rounding the allocated basis never moves the average cost outside such a range. */
  lemma {:induction false} TransitionKeepsBasisWithin(lo: int, hi: int, position: int, basis: int, delta: int, price: int, e: Economics)
    requires lo <= price <= hi && delta != 0 && RangeIsKept(lo, hi)
    requires BasisWithin(lo, hi, basis, position) && IsI128(basis)
    ensures var r := TransitionPosition(position, basis, delta, price, e);
      r.Ok? ==> BasisWithin(lo, hi, r.value.basis, r.value.position)
  {
    var r := TransitionPosition(position, basis, delta, price, e);
    if r.Ok? {
      var share := TransitionShape(position, basis, delta, price, e);
      if Opens(position, basis, delta, price, r.value) {
        OpeningKeepsBasisWithin(lo, hi, position, basis, delta, price);
      } else {
        ReducingKeepsBasisWithin(lo, hi, position, basis, delta, price, share, r.value.basis);
      }
    }
  }

  lemma {:induction false} OpeningKeepsBasisWithin(lo: int, hi: int, position: int, basis: int, delta: int, price: int)
    requires lo <= price <= hi && (position == 0 || Sign(position) == Sign(delta))
    requires BasisWithin(lo, hi, basis, position)
    ensures BasisWithin(lo, hi, basis + price * Abs(delta), position + delta)
  {
    ProductBetween(lo, price, hi, Abs(delta));
    var next, size, step := Abs(position + delta), Abs(position), Abs(delta);
    assert lo * next == lo * size + lo * step;
    assert hi * next == hi * size + hi * step;
  }

  lemma {:induction false} ReducingKeepsBasisWithin(lo: int, hi: int, position: int, basis: int, delta: int, price: int,
                                                    share: int, nextBasis: int)
    requires lo <= price <= hi && Reduces(position, basis, delta, price, share, nextBasis) && RangeIsKept(lo, hi)
    requires BasisWithin(lo, hi, basis, position) && IsI128(basis)
    ensures BasisWithin(lo, hi, nextBasis, position + delta)
  {
    var next := position + delta;
    if next != 0 && Sign(next) == Sign(position) {
      AllocationWithin(lo, hi, basis, Abs(delta), Abs(position));
    } else {
      ProductBetween(lo, price, hi, Abs(next));
    }
  }

  lemma {:induction false} ProductBetween(lo: int, x: int, hi: int, k: nat)
    requires lo <= x <= hi
    ensures lo * k <= x * k <= hi * k
  {
    ProductNonNegative(x - lo, k);
    ProductNonNegative(hi - x, k);
    assert (x - lo) * k == x * k - lo * k && (hi - x) * k == hi * k - x * k;
  }

  lemma {:induction false} AllocationWithin(lo: int, hi: int, basis: int, closed: nat, size: nat)
    requires 0 < closed < size <= I128_MAX && IsI128(basis) && RangeIsKept(lo, hi)
    requires lo * size <= basis <= hi * size
    ensures var a := AllocatedBasis(basis, closed, size);
      a.Ok? ==> lo * (size - closed) <= basis - a.value <= hi * (size - closed)
  {
    var a := AllocatedBasis(basis, closed, size);
    if a.Ok? {
      if basis >= 0 {
        ProductNonNegative(basis, closed);
        DivideRoundMeetsPolicy(basis * closed, size, HalfUp);
        NearestWithin(lo, hi, basis, closed, size, a.value, basis * closed);
      } else {
        NegativeProduct(basis, closed);
        NegativeShare(basis * closed, size, a.value);
        NegativeWithin(lo, hi, basis, closed, size, a.value, basis * closed);
      }
    }
  }

  lemma {:induction false} NegativeProduct(x: int, k: nat)
    requires x < 0 && k > 0
    ensures x * k < 0
  {
    assert x * k == -((-x) * k);
    assert (-x) * k == (-x - 1) * k + k;
    ProductNonNegative(-x - 1, k);
  }

  /** A negative quotient is cut off upwards, and then one may be added. */
  lemma {:induction false} NegativeShare(product: int, size: int, a: int)
    requires product < 0 < size <= I128_MAX && DivideRound(product, size, HalfUp) == Ok(a)
    ensures 0 <= a * size - product < 2 * size
    ensures product % size == 0 ==> a * size == product
  {
    TruncRemBounds(product, size);
    TruncRemZero(product, size);
    var q := TruncDiv(product, size);
    assert (q + 1) * size == q * size + size && q * size == size * q;
  }

  /** Every share that is nearer than one unit keeps the rest between whole units. */
  lemma {:induction false} NearestWithin(lo: int, hi: int, basis: int, closed: int, size: int, a: int, product: int)
    requires 0 < closed < size && lo * size <= basis <= hi * size
    requires product == basis * closed && -size < product - a * size < size
    ensures lo * (size - closed) <= basis - a <= hi * (size - closed)
  {
    var left := size - closed;
    RestBetween(lo, hi, basis, size, left);
    LeftBehind(basis, closed, size, a);
    AtLeast(size, basis - a, lo * left, basis * left);
    AtMost(size, basis - a, hi * left, basis * left);
  }

  /** A share up to two units too high leaves too little only where the basis is close to the range's end. */
  lemma {:induction false} NegativeWithin(lo: int, hi: int, basis: int, closed: int, size: int, a: int, product: int)
    requires 0 < closed < size && lo * size <= basis <= hi * size && basis < 0 && IsI128(basis) && RangeIsKept(lo, hi)
    requires product == basis * closed && 0 <= a * size - product < 2 * size && (product % size == 0 ==> a * size == product)
    ensures lo * (size - closed) <= basis - a <= hi * (size - closed)
  {
    var left := size - closed;
    RestBetween(lo, hi, basis, size, left);
    LeftBehind(basis, closed, size, a);
    AtMost(size, basis - a, hi * left, basis * left);
    if lo == hi {
      FlatShare(lo, basis, closed, size, product);
      AtLeast(size, basis - a, lo * left, basis * left);
    } else if lo >= 0 {
      ProductNonNegative(lo, size);
      assert false;
    } else {
      FarFromTheEnd(lo, basis, size);
      GapCovers(lo, basis, size, left);
      AtLeast(size, basis - a, lo * left, basis * left - size);
    }
  }

  lemma {:induction false} FlatShare(price: int, basis: int, closed: int, size: int, product: int)
    requires size > 0 && basis == price * size && product == basis * closed
    ensures product % size == 0
  {
    assert (price * size) * closed == (price * closed) * size;
    Divides(product, size, price * closed, 0);
  }

  lemma {:induction false} FarFromTheEnd(lo: int, basis: int, size: int)
    requires 2 * lo + 1 < I128_MIN && size >= 2 && basis >= I128_MIN
    ensures basis >= lo * size + size
  {
    assert lo * size + size == (lo + 1) * 2 + (lo + 1) * (size - 2);
    ProductNonNegative(-(lo + 1), size - 2);
    assert (-(lo + 1)) * (size - 2) == -((lo + 1) * (size - 2));
  }

  lemma {:induction false} GapCovers(lo: int, basis: int, size: int, left: int)
    requires basis >= lo * size + size && 0 < left && 0 < size
    ensures size * (lo * left) <= basis * left - size
  {
    ProductBetween(lo * size + size, basis, basis, left);
    RegroupFactors(lo, size, left);
    assert (lo * size + size) * left == (lo * size) * left + size * left;
    assert size * left == size * (left - 1) + size;
    ProductNonNegative(size, left - 1);
  }

  lemma {:induction false} RestBetween(lo: int, hi: int, basis: int, size: int, left: nat)
    requires lo * size <= basis <= hi * size
    ensures size * (lo * left) <= basis * left <= size * (hi * left)
  {
    ProductBetween(lo * size, basis, hi * size, left);
    RegroupFactors(lo, size, left);
    RegroupFactors(hi, size, left);
  }

  lemma {:induction false} RegroupFactors(x: int, y: int, z: int)
    ensures (x * y) * z == y * (x * z)
  {
  }

  lemma {:induction false} LeftBehind(basis: int, closed: int, size: int, a: int)
    ensures size * (basis - a) - basis * (size - closed) == basis * closed - a * size
  {
  }

  lemma {:induction false} AtLeast(size: int, x: int, bound: int, exact: int)
    requires size > 0 && size * bound <= exact && size * x > exact - size
    ensures x >= bound
  {
    assert size * (x + 1) == size * x + size;
    if x + 1 <= bound {
      ScaledBelow(size, x + 1, bound);
    }
  }

  lemma {:induction false} AtMost(size: int, x: int, bound: int, exact: int)
    requires size > 0 && exact <= size * bound && size * x < exact + size
    ensures x <= bound
  {
    assert size * (bound + 1) == size * bound + size;
    if bound + 1 <= x {
      ScaledBelow(size, bound + 1, x);
    }
  }

  /** The other ranges are not kept: of one unit at `lo` and one at the price above it, closing one takes
      two units of price too many. */
  lemma {:induction false} NegativePriceBasisEscapes(lo: int, hi: int)
    requires lo <= hi && !RangeIsKept(lo, hi)
    ensures BasisWithin(lo, hi, 2 * lo + 1, 2)
    ensures AllocatedBasis(2 * lo + 1, 1, 2) == Ok(lo + 2) && !BasisWithin(lo, hi, lo - 1, 1)
  {
    var n := -(2 * lo + 1);
    Divides(n, 2, -lo - 1, 1);
    assert TruncDiv(2 * lo + 1, 2) == lo + 1 && TruncRem(2 * lo + 1, 2) == -1;
  }
}
