/**
 Decimals as text. A number's text is read as the exact rational it denotes; the loops that compute
 it within 128 bits give that value or the reason there is none.
 */
module DecimalText {
  import opened Wrappers
  import opened MachineIntegers
  import opened DigitText

  const DECIMAL_SCALE: nat := 18
  const U128_MAX: int := 0xFFFF_FFFF_FFFF_FFFF_FFFF_FFFF_FFFF_FFFF

  datatype DecimalError = InvalidFormat | PrecisionLoss | OutOfRange

  // ------------------------------------------------------------------- digits

  function DigitsValue(digits: Bytes): nat
    requires AllDigits(digits)
  {
    if digits == [] then 0 else 10 * DigitsValue(digits[..|digits| - 1]) + (digits[|digits| - 1] - 48) as int
  }

  predicate AllDigits(digits: Bytes) {
    forall i :: 0 <= i < |digits| ==> IsDigit(digits[i])
  }

  lemma {:induction false} ValueBounds(digits: Bytes)
    requires AllDigits(digits)
    ensures DigitsValue(digits) < Power10(|digits|)
    ensures DigitsValue(digits) == 0 <==> forall i :: 0 <= i < |digits| ==> digits[i] == 48
  {
    if digits != [] {
      var init := digits[..|digits| - 1];
      ValueBounds(init);
      assert forall i :: 0 <= i < |init| ==> digits[i] == init[i];
    }
  }

  lemma {:induction false} ValueOfAppend(a: Bytes, b: Bytes)
    requires AllDigits(a) && AllDigits(b)
    ensures AllDigits(a + b) && DigitsValue(a + b) == DigitsValue(a) * Power10(|b|) + DigitsValue(b)
    decreases |b|
  {
    if b == [] {
      assert a + b == a;
    } else {
      var init := b[..|b| - 1];
      assert (a + b)[..|a + b| - 1] == a + init;
      ValueOfAppend(a, init);
      assert DigitsValue(a) * Power10(|b|) == 10 * (DigitsValue(a) * Power10(|init|)) by {
        TimesTen(DigitsValue(a), Power10(|init|));
      }
    }
  }

  /** The first `keep` digits are the quotient, and the rest the remainder, of a power of ten. */
  lemma {:induction false} SplitDigits(digits: Bytes, keep: nat)
    requires AllDigits(digits) && keep <= |digits|
    ensures DigitsValue(digits) / Power10(|digits| - keep) == DigitsValue(digits[..keep])
    ensures DigitsValue(digits) % Power10(|digits| - keep) == DigitsValue(digits[keep..])
  {
    var high, low := digits[..keep], digits[keep..];
    assert high + low == digits;
    ValueOfAppend(high, low);
    ValueBounds(low);
    Divides(DigitsValue(digits), Power10(|low|), DigitsValue(high), DigitsValue(low));
  }

  // ------------------------------------------------------------------- syntax

  datatype Number = Number(negative: bool, integer: Bytes, fraction: Bytes, exponent: int)

  predicate ValidNumber(n: Number) {
    AllDigits(n.integer) && AllDigits(n.fraction)
  }

  /** The end of the digits that start at `i`. */
  function DigitsEnd(bytes: Bytes, i: nat): (end: nat)
    requires i <= |bytes|
    ensures i <= end <= |bytes| && AllDigits(bytes[i..end]) && (end < |bytes| ==> !IsDigit(bytes[end]))
    decreases |bytes| - i
  {
    if i < |bytes| && IsDigit(bytes[i]) then
      assert bytes[i..DigitsEnd(bytes, i + 1)] == [bytes[i]] + bytes[i + 1..DigitsEnd(bytes, i + 1)];
      DigitsEnd(bytes, i + 1)
    else i
  }

  predicate SignAt(bytes: Bytes, i: nat) {
    i < |bytes| && (bytes[i] == MINUS || bytes[i] == PLUS)
  }

  /** The exponent that starts at `cursor`, and where it ends. */
  function ExponentAt(bytes: Bytes, cursor: nat): (r: Result<(int, nat), DecimalError>)
    requires cursor <= |bytes|
    ensures r.Ok? ==> r.value.1 <= |bytes| && IsI64(r.value.0)
  {
    var negative := cursor < |bytes| && bytes[cursor] == MINUS;
    var start := if SignAt(bytes, cursor) then cursor + 1 else cursor;
    var end := DigitsEnd(bytes, start);
    if end == start then Err(InvalidFormat) else
    var exponent := if negative then 0 - DigitsValue(bytes[start..end]) else DigitsValue(bytes[start..end]);
    if IsI64(exponent) then Ok((exponent, end)) else Err(OutOfRange)
  }

  predicate ExponentMark(bytes: Bytes, i: nat) {
    i < |bytes| && (bytes[i] == 101 || bytes[i] == 69)
  }

  /** The digits before and after the point, and where they end. */
  datatype Mantissa = Mantissa(integer: Bytes, fraction: Bytes, end: nat)

  function MantissaOf(bytes: Bytes): (m: Mantissa)
    ensures m.end <= |bytes| && AllDigits(m.integer) && AllDigits(m.fraction)
  {
    var start := if SignAt(bytes, 0) then 1 else 0;
    var point := DigitsEnd(bytes, start);
    if point < |bytes| && bytes[point] == DOT then
      var end := DigitsEnd(bytes, point + 1);
      Mantissa(bytes[start..point], bytes[point + 1..end], end)
    else Mantissa(bytes[start..point], [], point)
  }

  function Scan(bytes: Bytes): (r: Result<Number, DecimalError>)
    ensures r.Ok? ==> ValidNumber(r.value) && IsI64(r.value.exponent)
  {
    if bytes == [] then Err(InvalidFormat) else
    var m := MantissaOf(bytes);
    if m.integer == [] && m.fraction == [] then Err(InvalidFormat)
    else if ExponentMark(bytes, m.end) then
      var exponent :- ExponentAt(bytes, m.end + 1);
      if exponent.1 == |bytes| then Ok(Number(bytes[0] == MINUS, m.integer, m.fraction, exponent.0)) else Err(InvalidFormat)
    else if m.end == |bytes| then Ok(Number(bytes[0] == MINUS, m.integer, m.fraction, 0))
    else Err(InvalidFormat)
  }

  // ------------------------------------------------------------------- meaning

  /** The atoms of `digits` times a power of ten, when they are a whole number in range. */
  function ScaledAtoms(negative: bool, digits: Bytes, shift: int): Result<int, DecimalError>
    requires AllDigits(digits)
  {
    var n := DigitsValue(digits);
    if n == 0 then Ok(0)
    else if shift < 0 && n % Power10(0 - shift) != 0 then Err(PrecisionLoss)
    else
      var magnitude := if shift < 0 then n / Power10(0 - shift) else n * Power10(shift);
      var atoms := if negative then 0 - magnitude else magnitude;
      if IsI128(atoms) then Ok(atoms) else Err(OutOfRange)
  }

  function NumberAtoms(n: Number): Result<int, DecimalError>
    requires ValidNumber(n)
  {
    var shift := DECIMAL_SCALE + n.exponent - |n.fraction|;
    if !ShiftFits(n) then Err(OutOfRange)
    else ScaledAtoms(n.negative, n.integer + n.fraction, shift)
  }

  function Parse(bytes: Bytes): Result<int, DecimalError> {
    var number :- Scan(bytes);
    NumberAtoms(number)
  }

  // ---------------------------------------------------------------- the loops

  method SkipDigits(bytes: Bytes, start: nat) returns (cursor: nat)
    requires start <= |bytes|
    ensures cursor == DigitsEnd(bytes, start)
  {
    cursor := start;
    while cursor < |bytes| && IsDigit(bytes[cursor])
      invariant start <= cursor <= |bytes| && DigitsEnd(bytes, start) == DigitsEnd(bytes, cursor)
    {
      cursor := cursor + 1;
    }
  }

  /** A longer run of digits has no smaller value. */
  lemma {:induction false} ValueGrows(digits: Bytes, keep: nat)
    requires AllDigits(digits) && keep <= |digits|
    ensures AllDigits(digits[..keep]) && DigitsValue(digits[..keep]) <= DigitsValue(digits)
    decreases |digits|
  {
    if keep == |digits| {
      assert digits[..keep] == digits;
    } else {
      var init := digits[..|digits| - 1];
      assert init[..keep] == digits[..keep];
      ValueGrows(init, keep);
    }
  }

  lemma {:induction false} NextDigit(digits: Bytes, i: nat)
    requires AllDigits(digits) && i < |digits|
    ensures AllDigits(digits[..i]) && AllDigits(digits[..i + 1])
    ensures DigitsValue(digits[..i + 1]) == 10 * DigitsValue(digits[..i]) + (digits[i] - 48) as int
    ensures DigitsValue(digits[..i + 1]) <= DigitsValue(digits)
  {
    assert digits[..i + 1][..i] == digits[..i];
    ValueGrows(digits, i + 1);
  }

  /** Reads digits into a machine integer of at most `limit`; nothing when they do not fit. */
  method Accumulate(digits: Bytes, limit: nat) returns (r: Option<nat>)
    requires AllDigits(digits)
    ensures r == if DigitsValue(digits) <= limit then Some(DigitsValue(digits)) else None
  {
    var magnitude: nat := 0;
    for i := 0 to |digits|
      invariant magnitude == DigitsValue(digits[..i]) && magnitude <= limit
    {
      NextDigit(digits, i);
      var digit: int := digits[i] - 48;
      if magnitude * 10 > limit || magnitude * 10 + digit > limit {
        return None;
      }
      magnitude := magnitude * 10 + digit;
    }
    assert digits[..|digits|] == digits;
    return Some(magnitude);
  }

  method ParseExponent(bytes: Bytes, start: nat) returns (r: Result<(int, nat), DecimalError>)
    requires start <= |bytes|
    ensures r == ExponentAt(bytes, start)
  {
    var cursor := start;
    var negative := false;
    if cursor < |bytes| && bytes[cursor] == MINUS {
      cursor, negative := cursor + 1, true;
    } else if cursor < |bytes| && bytes[cursor] == PLUS {
      cursor := cursor + 1;
    }
    var end := SkipDigits(bytes, cursor);
    if end == cursor {
      return Err(InvalidFormat);
    }
    var magnitude := Accumulate(bytes[cursor..end], U64_MAX);
    if magnitude == None {
      return Err(OutOfRange);
    }
    if negative {
      if magnitude.value == I64_MAX + 1 {
        return Ok((I64_MIN, end));
      }
      if magnitude.value > I64_MAX {
        return Err(OutOfRange);
      }
      return Ok((0 - magnitude.value, end));
    }
    if magnitude.value > I64_MAX {
      return Err(OutOfRange);
    }
    return Ok((magnitude.value, end));
  }

  /** Multiplies by ten `times` times within 128 bits. */
  method MultiplyOut(start: nat, times: nat) returns (r: Option<nat>)
    requires start <= U128_MAX
    ensures r == if start * Power10(times) <= U128_MAX then Some(start * Power10(times)) else None
  {
    var magnitude := start;
    for i := 0 to times
      invariant magnitude == start * Power10(i) && magnitude <= U128_MAX
    {
      TimesTen(start, Power10(i));
      if magnitude * 10 > U128_MAX {
        PowGrows(start, i + 1, times);
        return None;
      }
      magnitude := magnitude * 10;
    }
    return Some(magnitude);
  }

  lemma {:induction false} PowGrows(n: nat, i: nat, j: nat)
    requires i <= j
    ensures n * Power10(i) <= n * Power10(j)
    decreases j - i
  {
    if i < j {
      PowGrows(n, i, j - 1);
      TimesTen(n, Power10(j - 1));
    }
  }

  function SignedAtoms(magnitude: nat, negative: bool): Result<int, DecimalError> {
    if negative then
      if magnitude == I128_MAX + 1 then Ok(I128_MIN)
      else if magnitude <= I128_MAX then Ok(0 - magnitude) else Err(OutOfRange)
    else if magnitude <= I128_MAX then Ok(magnitude) else Err(OutOfRange)
  }

  lemma {:induction false} BigPower()
    ensures Power10(39) > I128_MAX + 1 && Power10(18) == 1000000000000000000
  {
    assert Power10(5) == 100000;
    assert Power10(9) == 1000000000;
    assert Power10(13) == 10000000000000;
    assert Power10(18) == 1000000000000000000;
    assert Power10(22) == 10000000000000000000000;
    assert Power10(26) == 100000000000000000000000000;
    assert Power10(30) == 1000000000000000000000000000000;
    assert Power10(34) == 10000000000000000000000000000000000;
  }

  lemma {:induction false} TooManyFrom(n: nat, k: nat, shift: nat, bound: nat)
    requires n > 0 && k <= shift && Power10(k) > bound
    ensures n * Power10(shift) > bound
  {
    PowGrows(n, k, shift);
    AtLeastOnce(n, Power10(k));
  }

  lemma {:induction false} AtLeastOnce(n: nat, p: nat)
    requires n > 0
    ensures n * p >= p
  {
    assert n * p == (n - 1) * p + p;
  }

  /** More than 38 zeros take any nonzero number out of range. */
  lemma {:induction false} TooManyZeros(n: nat, shift: nat)
    requires n > 0 && shift > 38
    ensures n * Power10(shift) > I128_MAX + 1
  {
    BigPower();
    TooManyFrom(n, 39, shift, I128_MAX + 1);
  }

  /** Removing digits: exact when they are zeros, and impossible otherwise. */
  lemma {:induction false} RemovingDigits(digits: Bytes, removed: nat)
    requires AllDigits(digits) && DigitsValue(digits) > 0
    ensures removed > |digits| ==> DigitsValue(digits) % Power10(removed) != 0
    ensures removed <= |digits| ==>
      var keep := |digits| - removed;
      && AllDigits(digits[..keep]) && DigitsValue(digits) / Power10(removed) == DigitsValue(digits[..keep])
      && (DigitsValue(digits) % Power10(removed) == 0 <==> forall i :: keep <= i < |digits| ==> digits[i] == 48)
  {
    var n := DigitsValue(digits);
    if removed > |digits| {
      ValueBounds(digits);
      PowGrows(1, |digits|, removed);
      Divides(n, Power10(removed), 0, n);
    } else {
      var keep := |digits| - removed;
      SplitDigits(digits, keep);
      ValueBounds(digits[keep..]);
      assert forall i :: keep <= i < |digits| ==> digits[i] == digits[keep..][i - keep];
      assert forall i :: 0 <= i < removed ==> digits[keep..][i] == digits[keep + i];
    }
  }

  /** Whether every digit from `from` on is zero. */
  method OnlyZeros(digits: Bytes, from: nat) returns (r: bool)
    requires from <= |digits|
    ensures r <==> forall i :: from <= i < |digits| ==> digits[i] == 48
  {
    for i := from to |digits|
      invariant forall j :: from <= j < i ==> digits[j] == 48
    {
      if digits[i] != 48 {
        return false;
      }
    }
    return true;
  }

  method ComputeAtoms(negative: bool, digits: Bytes, shift: int) returns (r: Result<int, DecimalError>)
    requires AllDigits(digits)
    ensures r == ScaledAtoms(negative, digits, shift)
  {
    ValueBounds(digits);
    var zero := OnlyZeros(digits, 0);
    if zero {
      return Ok(0);
    }
    if shift < 0 {
      r := RemoveDigits(negative, digits, 0 - shift);
    } else {
      r := AddZeros(negative, digits, shift);
    }
  }

  method RemoveDigits(negative: bool, digits: Bytes, removed: nat) returns (r: Result<int, DecimalError>)
    requires AllDigits(digits) && DigitsValue(digits) > 0 && removed > 0
    ensures r == ScaledAtoms(negative, digits, 0 - removed)
  {
    RemovingDigits(digits, removed);
    if removed > |digits| {
      return Err(PrecisionLoss);
    }
    var retained := |digits| - removed;
    var exact := OnlyZeros(digits, retained);
    if !exact {
      return Err(PrecisionLoss);
    }
    var magnitude := Accumulate(digits[..retained], U128_MAX);
    if magnitude == None {
      return Err(OutOfRange);
    }
    return SignedAtoms(magnitude.value, negative);
  }

  method AddZeros(negative: bool, digits: Bytes, shift: nat) returns (r: Result<int, DecimalError>)
    requires AllDigits(digits) && DigitsValue(digits) > 0
    ensures r == ScaledAtoms(negative, digits, shift)
  {
    ghost var n := DigitsValue(digits);
    PowGrows(n, 0, shift);
    assert n * Power10(0) == n;
    var magnitude := Accumulate(digits, U128_MAX);
    if magnitude == None {
      return Err(OutOfRange);
    }
    if shift > 38 {
      TooManyZeros(n, shift);
      return Err(OutOfRange);
    }
    var scaled := MultiplyOut(magnitude.value, shift);
    if scaled == None {
      return Err(OutOfRange);
    }
    return SignedAtoms(scaled.value, negative);
  }

  method ScanMantissa(bytes: Bytes) returns (m: Mantissa)
    ensures m == MantissaOf(bytes)
  {
    var start := if bytes != [] && (bytes[0] == MINUS || bytes[0] == PLUS) then 1 else 0;
    var point := SkipDigits(bytes, start);
    if point < |bytes| && bytes[point] == DOT {
      var end := SkipDigits(bytes, point + 1);
      return Mantissa(bytes[start..point], bytes[point + 1..end], end);
    }
    return Mantissa(bytes[start..point], [], point);
  }

  method ScanNumber(bytes: Bytes) returns (r: Result<Number, DecimalError>)
    ensures r == Scan(bytes)
  {
    if bytes == [] {
      return Err(InvalidFormat);
    }
    var m := ScanMantissa(bytes);
    if m.integer == [] && m.fraction == [] {
      return Err(InvalidFormat);
    }
    if !ExponentMark(bytes, m.end) {
      return if m.end == |bytes| then Ok(Number(bytes[0] == MINUS, m.integer, m.fraction, 0)) else Err(InvalidFormat);
    }
    var exponent :- ParseExponent(bytes, m.end + 1);
    if exponent.1 != |bytes| {
      return Err(InvalidFormat);
    }
    return Ok(Number(bytes[0] == MINUS, m.integer, m.fraction, exponent.0));
  }

  /** Within the bounds of its machine integers the parser computes exactly what the text denotes. */
  method ParseDecimal(bytes: Bytes) returns (r: Result<int, DecimalError>)
    ensures r == Parse(bytes)
  {
    var number :- ScanNumber(bytes);
    var shift := DECIMAL_SCALE + number.exponent - |number.fraction|;
    if !IsI64(DECIMAL_SCALE + number.exponent) || !IsI64(shift) {
      return Err(OutOfRange);
    }
    assert AllDigits(number.integer + number.fraction);
    r := ComputeAtoms(number.negative, number.integer + number.fraction, shift);
  }

  // -------------------------------------------------------------- exactness

  predicate Multiple(n: nat, p: nat, m: nat) {
    n == m * p
  }

  ghost predicate IsMultiple(n: nat, p: nat) {
    exists m: nat :: Multiple(n, p, m)
  }

  /** What is computed has exactly the value denoted, `10^-18` at a time. */
  lemma {:induction false} AtomsAreExact(negative: bool, digits: Bytes, shift: int)
    requires AllDigits(digits) && ScaledAtoms(negative, digits, shift).Ok?
    ensures var atoms, n := ScaledAtoms(negative, digits, shift).value, DigitsValue(digits);
      && (if shift >= 0 then Abs(atoms) == n * Power10(shift) else Abs(atoms) * Power10(0 - shift) == n)
      && (atoms > 0 ==> !negative) && (atoms < 0 ==> negative)
  {
    var n := DigitsValue(digits);
    if n == 0 {
      assert shift >= 0 ==> 0 * Power10(shift) == 0;
    } else if shift < 0 {
      Divisible(n, Power10(0 - shift));
    }
  }

  /** Precision is lost exactly when no whole number of atoms is the value. */
  lemma {:induction false} PrecisionLostExactly(negative: bool, digits: Bytes, shift: int)
    requires AllDigits(digits)
    ensures ScaledAtoms(negative, digits, shift) == Err(PrecisionLoss)
       <==> shift < 0 && !IsMultiple(DigitsValue(digits), Power10(0 - shift))
  {
    if shift < 0 {
      var n, p := DigitsValue(digits), Power10(0 - shift);
      LossIsRemainder(negative, digits, shift);
      Divisible(n, p);
      if n == 0 {
        assert Multiple(n, p, 0);
      }
    }
  }

  lemma {:induction false} LossIsRemainder(negative: bool, digits: Bytes, shift: int)
    requires AllDigits(digits) && shift < 0
    ensures ScaledAtoms(negative, digits, shift) == Err(PrecisionLoss)
       <==> DigitsValue(digits) != 0 && DigitsValue(digits) % Power10(0 - shift) != 0
  {
  }

  lemma {:induction false} Divisible(n: nat, p: nat)
    requires p > 0
    ensures n % p == 0 <==> IsMultiple(n, p)
    ensures n % p == 0 ==> n / p * p == n
  {
    assert n == p * (n / p) + n % p;
    if n % p == 0 {
      assert Multiple(n, p, n / p);
    }
    forall m: nat | Multiple(n, p, m) ensures n % p == 0 {
      Divides(n, p, m, 0);
    }
  }

  /** `atoms` of 10^-18 are the number: its digits, times ten to its exponent less the fraction's length, signed. */
  predicate Denotes(n: Number, atoms: int)
    requires ValidNumber(n)
  {
    && Abs(atoms) * Power10(|n.fraction| + Max(0, 0 - n.exponent)) == DigitsValue(n.integer + n.fraction) * Power10(DECIMAL_SCALE + Max(0, n.exponent))
    && (atoms > 0 ==> !n.negative) && (atoms < 0 ==> n.negative)
  }

  predicate ShiftFits(n: Number) {
    IsI64(DECIMAL_SCALE + n.exponent) && IsI64(DECIMAL_SCALE + n.exponent - |n.fraction|)
  }

  lemma {:induction false} CancelPowers(a: nat, n: nat, low: nat, high: nat)
    ensures a * Power10(low) == n * Power10(high)
       <==> if high >= low then a == n * Power10(high - low) else a * Power10(low - high) == n
  {
    if high >= low {
      Power10Adds(low, high - low);
      Associate(n, Power10(high - low), Power10(low));
      if a * Power10(low) == n * Power10(high) {
        CancelFactor(Power10(low), a, n * Power10(high - low));
      }
    } else {
      Power10Adds(high, low - high);
      Associate(a, Power10(low - high), Power10(high));
      if a * Power10(low) == n * Power10(high) {
        CancelFactor(Power10(high), a * Power10(low - high), n);
      }
    }
  }

  lemma {:induction false} Associate(n: int, p: int, q: int)
    ensures n * (q * p) == (n * p) * q
  {
  }

  /** What the shift makes of a number is what the number denotes. */
  lemma {:induction false} DenotesScaled(n: Number, atoms: int)
    requires ValidNumber(n)
    ensures var shift, digits := DECIMAL_SCALE + n.exponent - |n.fraction|, DigitsValue(n.integer + n.fraction);
      Denotes(n, atoms) <==>
        && (if shift >= 0 then Abs(atoms) == digits * Power10(shift) else Abs(atoms) * Power10(0 - shift) == digits)
        && (atoms > 0 ==> !n.negative) && (atoms < 0 ==> n.negative)
  {
    var low, high := |n.fraction| + Max(0, 0 - n.exponent), DECIMAL_SCALE + Max(0, n.exponent);
    assert high - low == DECIMAL_SCALE + n.exponent - |n.fraction|;
    CancelPowers(Abs(atoms), DigitsValue(n.integer + n.fraction), low, high);
  }

  /** A text parses to an atom count exactly when it denotes it and the count and the exponent are in range. */
  lemma {:induction false} ParsesExactly(bytes: Bytes, atoms: int)
    ensures Parse(bytes) == Ok(atoms)
       <==> Scan(bytes).Ok? && ShiftFits(Scan(bytes).value) && IsI128(atoms) && Denotes(Scan(bytes).value, atoms)
  {
    if Scan(bytes).Ok? {
      var n := Scan(bytes).value;
      var digits, shift := n.integer + n.fraction, DECIMAL_SCALE + n.exponent - |n.fraction|;
      DenotesScaled(n, atoms);
      ScaledExactly(n.negative, digits, shift, atoms);
    }
  }

  lemma {:induction false} ScaledExactly(negative: bool, digits: Bytes, shift: int, atoms: int)
    requires AllDigits(digits)
    ensures ScaledAtoms(negative, digits, shift) == Ok(atoms) <==>
      && IsI128(atoms) && (atoms > 0 ==> !negative) && (atoms < 0 ==> negative)
      && (if shift >= 0 then Abs(atoms) == DigitsValue(digits) * Power10(shift) else Abs(atoms) * Power10(0 - shift) == DigitsValue(digits))
  {
    var n := DigitsValue(digits);
    if n == 0 {
      assert shift >= 0 ==> 0 * Power10(shift) == 0;
      if shift < 0 && Abs(atoms) > 0 {
        assert Abs(atoms) * Power10(0 - shift) > 0;
      }
    } else if shift < 0 {
      Divisible(n, Power10(0 - shift));
      if Abs(atoms) * Power10(0 - shift) == n {
        Divides(n, Power10(0 - shift), Abs(atoms), 0);
      }
    }
  }

  lemma {:induction false} DenotedBy(n: Number, magnitude: nat)
    requires ValidNumber(n)
    requires var shift, digits := DECIMAL_SCALE + n.exponent - |n.fraction|, DigitsValue(n.integer + n.fraction);
      if shift >= 0 then magnitude == digits * Power10(shift) else magnitude * Power10(0 - shift) == digits
    ensures exists atoms :: Denotes(n, atoms)
  {
    var atoms := if n.negative then 0 - magnitude else magnitude;
    DenotesScaled(n, atoms);
    assert Denotes(n, atoms);
  }

  /** And it fails, when it is a number at all, for lack of precision exactly when it denotes no atom count. */
  lemma {:induction false} TextLosesPrecisionExactly(bytes: Bytes)
    ensures Parse(bytes) == Err(PrecisionLoss)
       <==> Scan(bytes).Ok? && ShiftFits(Scan(bytes).value) && forall atoms :: !Denotes(Scan(bytes).value, atoms)
  {
    if Scan(bytes).Ok? {
      var n := Scan(bytes).value;
      var shift, digits := DECIMAL_SCALE + n.exponent - |n.fraction|, DigitsValue(n.integer + n.fraction);
      PrecisionLostExactly(n.negative, n.integer + n.fraction, shift);
      forall atoms ensures Denotes(n, atoms) ==> shift >= 0 || IsMultiple(digits, Power10(0 - shift)) {
        DenotesScaled(n, atoms);
        assert shift < 0 && Denotes(n, atoms) ==> Multiple(digits, Power10(0 - shift), Abs(atoms));
      }
      if shift >= 0 {
        DenotedBy(n, digits * Power10(shift));
      } else if IsMultiple(digits, Power10(0 - shift)) {
        var m: nat :| Multiple(digits, Power10(0 - shift), m);
        DenotedBy(n, m);
      }
    }
  }

  // ----------------------------------------------------------------- printing

  /** The digits of `n`, at least one and no leading zero. */
  function NatText(n: nat): (text: Bytes)
    ensures text != []
  {
    if n < 10 then [Digit(n)] else NatText(n / 10) + [Digit(n % 10)]
  }

  function TrimZeros(digits: Bytes): Bytes {
    if digits != [] && digits[|digits| - 1] == 48 then TrimZeros(digits[..|digits| - 1]) else digits
  }

  function Show(atoms: int): Bytes {
    BigPower();
    var fraction := Abs(atoms) % Power10(DECIMAL_SCALE);
    (if atoms < 0 then [MINUS] else []) + NatText(Abs(atoms) / Power10(DECIMAL_SCALE))
    + (if fraction == 0 then [] else [DOT] + TrimZeros(Padded(fraction, DECIMAL_SCALE)))
  }

  lemma {:induction false} NatTextValue(n: nat)
    ensures AllDigits(NatText(n)) && DigitsValue(NatText(n)) == n
  {
    if n >= 10 {
      NatTextValue(n / 10);
      assert NatText(n)[..|NatText(n)| - 1] == NatText(n / 10);
    }
  }

  lemma {:induction false} PaddedValue(n: nat, width: nat)
    requires n < Power10(width)
    ensures AllDigits(Padded(n, width)) && DigitsValue(Padded(n, width)) == n
    decreases width
  {
    if width > 0 {
      PaddedValue(n / 10, width - 1);
      assert Padded(n, width)[..width - 1] == Padded(n / 10, width - 1);
    }
  }

  /** Trimming zeros divides by a power of ten, and leaves something of what is not zero. */
  lemma {:induction false} TrimValue(digits: Bytes)
    requires AllDigits(digits)
    ensures var kept := TrimZeros(digits);
      && |kept| <= |digits| && AllDigits(kept) && DigitsValue(kept) * Power10(|digits| - |kept|) == DigitsValue(digits)
      && (DigitsValue(digits) > 0 ==> kept != [])
    decreases |digits|
  {
    if digits != [] && digits[|digits| - 1] == 48 {
      var init := digits[..|digits| - 1];
      TrimValue(init);
      TimesTen(DigitsValue(TrimZeros(init)), Power10(|init| - |TrimZeros(init)|));
    }
  }

  lemma {:induction false} DigitsEndAt(bytes: Bytes, start: nat, end: nat)
    requires start <= end <= |bytes| && AllDigits(bytes[start..end]) && (end < |bytes| ==> !IsDigit(bytes[end]))
    ensures DigitsEnd(bytes, start) == end
  {
    var found := DigitsEnd(bytes, start);
    assert forall i :: start <= i < end ==> bytes[i] == bytes[start..end][i - start];
    assert forall i :: start <= i < found ==> bytes[i] == bytes[start..found][i - start];
  }

  lemma {:induction false} MantissaShown(sign: Bytes, integer: Bytes, fraction: Bytes, tail: Bytes)
    requires AllDigits(integer) && AllDigits(fraction) && integer != [] && (sign == [] || sign == [MINUS])
    requires tail == if fraction == [] then [] else [DOT] + fraction
    ensures MantissaOf(sign + integer + tail) == Mantissa(integer, fraction, |sign + integer + tail|)
  {
    var text := sign + integer + tail;
    var start, point := |sign|, |sign| + |integer|;
    assert text[start..point] == integer && text[point..] == tail;
    assert sign == [] ==> text[0] == integer[0];
    assert SignAt(text, 0) <==> sign != [];
    if fraction == [] {
      DigitsEndAt(text, start, point);
    } else {
      assert text[point] == tail[0] == DOT;
      DigitsEndAt(text, start, point);
      assert text[point + 1..|text|] == text[point..][1..] == tail[1..] == fraction;
      DigitsEndAt(text, point + 1, |text|);
    }
  }

  /** The text of a number without an exponent, scanned. */
  lemma {:induction false} ScanShown(negative: bool, integer: Bytes, fraction: Bytes)
    requires AllDigits(integer) && AllDigits(fraction) && integer != []
    ensures var text := (if negative then [MINUS] else []) + integer + (if fraction == [] then [] else [DOT] + fraction);
      Scan(text) == Ok(Number(negative, integer, fraction, 0))
  {
    var sign := if negative then [MINUS] else [];
    var tail := if fraction == [] then [] else [DOT] + fraction;
    MantissaShown(sign, integer, fraction, tail);
    var text := sign + integer + tail;
    assert text[0] == if negative then MINUS else integer[0];
  }

  /** Every atom count of 128 bits, the least included, is what its text parses to. */
  lemma {:induction false} ParseInvertsShow(atoms: i128)
    ensures Parse(Show(atoms)) == Ok(atoms)
  {
    BigPower();
    var whole, part := Abs(atoms) / Power10(DECIMAL_SCALE), Abs(atoms) % Power10(DECIMAL_SCALE);
    NatTextValue(whole);
    PaddedValue(part, DECIMAL_SCALE);
    var digits := Padded(part, DECIMAL_SCALE);
    var fraction := if part == 0 then [] else TrimZeros(digits);
    TrimValue(digits);
    ScanShown(atoms < 0, NatText(whole), fraction);
    ShownAtoms(atoms, whole, part, NatText(whole), fraction);
  }

  lemma {:induction false} ShownAtoms(atoms: i128, whole: nat, part: nat, integer: Bytes, fraction: Bytes)
    requires Abs(atoms) == whole * Power10(DECIMAL_SCALE) + part
    requires AllDigits(integer) && AllDigits(fraction) && DigitsValue(integer) == whole && |fraction| <= DECIMAL_SCALE
    requires DigitsValue(fraction) * Power10(DECIMAL_SCALE - |fraction|) == part
    ensures NumberAtoms(Number(atoms < 0, integer, fraction, 0)) == Ok(atoms)
  {
    var shift := DECIMAL_SCALE - |fraction|;
    var n := DigitsValue(integer + fraction);
    ShownValue(whole, part, integer, fraction);
    assert n == 0 ==> atoms == 0 by {
      assert 0 * Power10(shift) == 0;
    }
  }

  lemma {:induction false} ShownValue(whole: nat, part: nat, integer: Bytes, fraction: Bytes)
    requires AllDigits(integer) && AllDigits(fraction) && DigitsValue(integer) == whole && |fraction| <= DECIMAL_SCALE
    requires DigitsValue(fraction) * Power10(DECIMAL_SCALE - |fraction|) == part
    ensures AllDigits(integer + fraction)
    ensures DigitsValue(integer + fraction) * Power10(DECIMAL_SCALE - |fraction|) == whole * Power10(DECIMAL_SCALE) + part
  {
    ValueOfAppend(integer, fraction);
    Power10Adds(|fraction|, DECIMAL_SCALE - |fraction|);
    Distribute(whole, Power10(|fraction|), DigitsValue(fraction), Power10(DECIMAL_SCALE - |fraction|));
  }

  lemma {:induction false} Distribute(w: nat, p: nat, f: nat, q: nat)
    ensures (w * p + f) * q == w * (p * q) + f * q
  {
  }
}
