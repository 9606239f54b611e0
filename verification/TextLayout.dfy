/** Which texts are dates, instants and decimal numbers, character by character, and what each of them says. */
module TextLayout {
  import opened Wrappers
  import opened MachineIntegers
  import opened CivilDate
  import opened DigitText
  import opened CalendarText
  import InstantText
  import DecimalText

  // --------------------------------------------------------------------- dates

  function TwoDigits(n: nat): Bytes
    requires n < 100
  {
    [48 + n / 10, 48 + n % 10]
  }

  function FourDigits(n: nat): Bytes
    requires n < 10000
  {
    TwoDigits(n / 100) + TwoDigits(n % 100)
  }

  /** Year, month and day, with hyphens between them. */
  function DateLayout(year: nat, month: nat, day: nat): Bytes
    requires year < 10000 && month < 100 && day < 100
  {
    FourDigits(year) + [45] + TwoDigits(month) + [45] + TwoDigits(day)
  }

  lemma {:induction false} PadsTwo(n: nat)
    requires n < 100
    ensures Power10(2) == 100 && Padded(n, 2) == TwoDigits(n)
  {
    Powers();
    assert Padded(n / 10, 1) == [Digit(n / 10)];
  }

  lemma {:induction false} PadsFour(n: nat)
    requires n < 10000
    ensures Power10(4) == 10000 && Padded(n, 4) == FourDigits(n)
  {
    Powers();
    PadsTwo(n / 100);
    var d3, d4 := n / 10 % 10, n % 10;
    assert n / 10 / 10 == n / 100 && n % 100 == 10 * d3 + d4;
    assert Power10(3) == 1000;
    assert Padded(n / 10, 3) == TwoDigits(n / 100) + [Digit(d3)];
  }

  /** The day after a date. */
  function NextDay(c: Civil): Civil {
    if c.day < DaysInMonth(c.year, c.month) then c.(day := c.day + 1)
    else if c.month < 12 then Civil(c.year, c.month + 1, 1) else Civil(c.year + 1, 1, 1)
  }

  lemma {:induction false} NothingBetween(c: Civil, b: Civil)
    requires ValidDate(c) && ValidDate(b)
    ensures ValidDate(NextDay(c)) && Before(c, NextDay(c)) && (b == c || Before(b, c) || b == NextDay(c) || Before(NextDay(c), b))
  {
  }

  /** A numbering that rises and leaves out no number gives the next day the next one. */
  lemma {:induction false} NumberedNext(days: Civil -> int, c: Civil, b: Civil)
    requires forall x, y :: ValidDate(x) && ValidDate(y) && Before(x, y) ==> days(x) < days(y)
    requires ValidDate(c) && ValidDate(b) && days(b) == days(c) + 1
    ensures days(NextDay(c)) == days(c) + 1
  {
    NothingBetween(c, b);
  }

  lemma {:induction false} Rises(days: Civil -> int)
    requires days == DaysFromCivil
    ensures forall x, y :: ValidDate(x) && ValidDate(y) && Before(x, y) ==> days(x) < days(y)
  {
    forall x, y | ValidDate(x) && ValidDate(y) && Before(x, y) ensures days(x) < days(y) {
      DaysIncrease(x, y);
    }
  }

  lemma {:induction false} Numbers(days: Civil -> int, d: int) returns (b: Civil)
    requires days == DaysFromCivil
    ensures ValidDate(b) && days(b) == d
  {
    b := InstantText.ShownDate(d);
  }

  /** Day 0 is 1970-01-01, and each day has the number after that of the day before. */
  lemma {:induction false} DaysCount(days: Civil -> int, c: Civil)
    requires days == DaysFromCivil && ValidDate(c)
    ensures ValidDate(NextDay(c)) && days(NextDay(c)) == days(c) + 1 && days(Civil(1970, 1, 1)) == 0
  {
    Rises(days);
    var b := Numbers(days, days(c) + 1);
    NothingBetween(c, b);
    NumberedNext(days, c, b);
    Epoch(days);
  }

  lemma {:induction false} Epoch(days: Civil -> int)
    requires days == DaysFromCivil
    ensures days(Civil(1970, 1, 1)) == 0
  {
  }

  /** A trading date is written as its year, month and day. */
  lemma {:induction false} ShowsDate(c: Civil)
    requires ValidDate(c) && 0 <= c.year <= 9999
    ensures var days := DaysFromCivil(c);
      MIN_EPOCH_DAYS <= days <= MAX_EPOCH_DAYS && ShowDate(days) == DateLayout(c.year, c.month, c.day)
  {
    FourDigitYears(c);
    CivilRoundTrip(c);
    PadsFour(c.year);
    PadsTwo(c.month);
    PadsTwo(c.day);
  }

  // ------------------------------------------------------------------- decimals

  datatype WrittenExponent = NoExponent | WrittenExponent(mark: byte, sign: Bytes, digits: Bytes)

  /** A number as it is written. */
  datatype Written = Written(sign: Bytes, integer: Bytes, point: bool, fraction: Bytes, exponent: WrittenExponent)

  predicate IsSign(sign: Bytes) {
    sign == [] || sign == [43] || sign == [45]
  }

  /** Decimal digits only. */
  predicate Digits(digits: Bytes) {
    forall i :: 0 <= i < |digits| ==> 48 <= digits[i] <= 57
  }

  predicate WellWritten(w: Written) {
    && IsSign(w.sign) && Digits(w.integer) && Digits(w.fraction) && (w.integer != [] || w.fraction != []) && (w.fraction != [] ==> w.point)
    && match w.exponent
       case NoExponent => true
       case WrittenExponent(mark, sign, digits) => (mark == 69 || mark == 101) && IsSign(sign) && Digits(digits) && digits != []
  }

  function ExponentText(e: WrittenExponent): Bytes {
    match e
    case NoExponent => []
    case WrittenExponent(mark, sign, digits) => [mark] + (sign + digits)
  }

  /** Sign, digits, a point with more digits, and an exponent. */
  function TextOf(w: Written): Bytes {
    BeforeExponent(w) + ExponentText(w.exponent)
  }

  function BeforeExponent(w: Written): Bytes {
    w.sign + w.integer + (if w.point then [46] + w.fraction else [])
  }

  function ExponentOf(e: WrittenExponent): int
    requires e.WrittenExponent? ==> Digits(e.digits)
  {
    match e
    case NoExponent => 0
    case WrittenExponent(_, sign, digits) =>
      assert DecimalText.AllDigits(digits);
      if sign == [45] then 0 - DecimalText.DigitsValue(digits) else DecimalText.DigitsValue(digits)
  }

  lemma {:induction false} SliceIs(a: Bytes, b: Bytes, c: Bytes)
    ensures (a + b + c)[|a|..|a| + |b|] == b && (a + b + c)[|a| + |b|..] == c && (a + b + c)[..|a|] == a
    ensures forall i :: 0 <= i < |c| ==> (a + b + c)[|a| + |b| + i] == c[i]
  {
  }

  /** Digits between two texts, the second of which does not start with one. */
  lemma {:induction false} DigitsBetween(a: Bytes, digits: Bytes, c: Bytes)
    requires Digits(digits) && (c != [] ==> !(48 <= c[0] <= 57))
    ensures DecimalText.DigitsEnd(a + digits + c, |a|) == |a| + |digits|
  {
    SliceIs(a, digits, c);
    DecimalText.DigitsEndAt(a + digits + c, |a|, |a| + |digits|);
  }

  lemma {:induction false} ReadsExponent(before: Bytes, e: WrittenExponent)
    requires e.WrittenExponent? && IsSign(e.sign) && Digits(e.digits) && e.digits != []
    ensures var text := before + (e.sign + e.digits);
      DecimalText.ExponentAt(text, |before|) == if IsI64(ExponentOf(e)) then Ok((ExponentOf(e), |text|)) else Err(DecimalText.OutOfRange)
  {
    var text := before + (e.sign + e.digits);
    assert text == (before + e.sign) + e.digits + [];
    DigitsBetween(before + e.sign, e.digits, []);
    SliceIs(before + e.sign, e.digits, []);
    assert text[|before|] == if e.sign == [] then e.digits[0] else e.sign[0];
    assert text[|before| + |e.sign|..|text|] == e.digits;
  }

  lemma {:induction false} ReadsSign(sign: Bytes, rest: Bytes)
    requires IsSign(sign) && (sign == [] && rest != [] ==> 48 <= rest[0] <= 57 || rest[0] == 46)
    ensures DecimalText.SignAt(sign + rest, 0) <==> sign != []
    ensures sign + rest != [] ==> ((sign + rest)[0] == 45 <==> sign == [45])
  {
    assert sign == [] ==> sign + rest == rest;
  }

  lemma {:induction false} MantissaAt(text: Bytes, start: nat, p: nat, end: nat)
    requires start == (if DecimalText.SignAt(text, 0) then 1 else 0) && start <= |text| && p == DecimalText.DigitsEnd(text, start)
    requires end == if p < |text| && text[p] == 46 then DecimalText.DigitsEnd(text, p + 1) else p
    ensures DecimalText.MantissaOf(text)
         == DecimalText.Mantissa(text[start..p], if p < |text| && text[p] == 46 then text[p + 1..end] else [], end)
  {
  }

  lemma {:induction false} ReadsWithout(sign: Bytes, integer: Bytes, rest: Bytes)
    requires IsSign(sign) && Digits(integer) && integer != [] && (rest != [] ==> rest[0] == 69 || rest[0] == 101)
    ensures DecimalText.MantissaOf(sign + integer + rest) == DecimalText.Mantissa(integer, [], |sign| + |integer|)
  {
    var text := sign + integer + rest;
    assert text == sign + (integer + rest);
    ReadsSign(sign, integer + rest);
    SliceIs(sign, integer, rest);
    DigitsBetween(sign, integer, rest);
    var p := |sign| + |integer|;
    assert p < |text| ==> text[p] == rest[0];
    MantissaAt(text, |sign|, p, p);
  }

  lemma {:induction false} PointAt(sign: Bytes, integer: Bytes, tail: Bytes)
    requires IsSign(sign) && Digits(integer) && tail != [] && tail[0] == 46
    ensures var text, p := sign + integer + tail, |sign| + |integer|;
      && (DecimalText.SignAt(text, 0) <==> sign != []) && DecimalText.DigitsEnd(text, |sign|) == p < |text|
      && text[p] == 46 && text[|sign|..p] == integer
  {
    assert sign + integer + tail == sign + (integer + tail);
    ReadsSign(sign, integer + tail);
    SliceIs(sign, integer, tail);
    DigitsBetween(sign, integer, tail);
  }

  lemma {:induction false} ReadsWith(sign: Bytes, integer: Bytes, fraction: Bytes, rest: Bytes)
    requires IsSign(sign) && Digits(integer) && Digits(fraction) && (rest != [] ==> rest[0] == 69 || rest[0] == 101)
    ensures var before := sign + integer + [46];
      DecimalText.MantissaOf(before + fraction + rest) == DecimalText.Mantissa(integer, fraction, |before + fraction|)
  {
    var before := sign + integer + [46];
    var text, p := before + fraction + rest, |sign| + |integer|;
    Regrouped(sign, integer, fraction, rest);
    PointAt(sign, integer, [46] + (fraction + rest));
    DigitsAfter(before, fraction, rest);
    MantissaAt(text, |sign|, p, p + 1 + |fraction|);
  }

  lemma {:induction false} Regrouped(sign: Bytes, integer: Bytes, fraction: Bytes, rest: Bytes)
    ensures sign + integer + [46] + fraction + rest == sign + integer + ([46] + (fraction + rest))
  {
  }

  lemma {:induction false} DigitsAfter(before: Bytes, digits: Bytes, rest: Bytes)
    requires Digits(digits) && (rest != [] ==> !(48 <= rest[0] <= 57))
    ensures var text, end := before + digits + rest, |before| + |digits|;
      DecimalText.DigitsEnd(text, |before|) == end && text[|before|..end] == digits
  {
    SliceIs(before, digits, rest);
    DigitsBetween(before, digits, rest);
  }

  lemma {:induction false} ReadsMantissa(w: Written)
    requires WellWritten(w)
    ensures DecimalText.MantissaOf(TextOf(w)) == DecimalText.Mantissa(w.integer, w.fraction, |BeforeExponent(w)|)
  {
    if w.point {
      assert BeforeExponent(w) == w.sign + w.integer + [46] + w.fraction;
      ReadsWith(w.sign, w.integer, w.fraction, ExponentText(w.exponent));
    } else {
      assert BeforeExponent(w) == w.sign + w.integer;
      ReadsWithout(w.sign, w.integer, ExponentText(w.exponent));
    }
  }

  lemma {:induction false} FirstIsSign(w: Written)
    requires WellWritten(w)
    ensures TextOf(w) != [] && (TextOf(w)[0] == 45 <==> w.sign == [45])
  {
    var tail := (if w.point then [46] + w.fraction else []) + ExponentText(w.exponent);
    assert TextOf(w) == w.sign + (w.integer + tail);
    ReadsSign(w.sign, w.integer + tail);
  }

  /** A well-written number is read as its parts, or its exponent does not fit 64 bits. */
  lemma {:induction false} ReadsNumber(w: Written)
    requires WellWritten(w)
    ensures DecimalText.Scan(TextOf(w)) ==
      if IsI64(ExponentOf(w.exponent)) then Ok(DecimalText.Number(w.sign == [45], w.integer, w.fraction, ExponentOf(w.exponent)))
      else Err(DecimalText.OutOfRange)
  {
    if w.exponent.WrittenExponent? {
      ReadsScaled(w);
    } else {
      ReadsPlain(w);
    }
  }

  lemma {:induction false} ReadsPlain(w: Written)
    requires WellWritten(w) && w.exponent == NoExponent
    ensures DecimalText.Scan(TextOf(w)) == Ok(DecimalText.Number(w.sign == [45], w.integer, w.fraction, 0))
  {
    ReadsMantissa(w);
    FirstIsSign(w);
    ScanPlain(TextOf(w), DecimalText.Mantissa(w.integer, w.fraction, |BeforeExponent(w)|));
  }

  lemma {:induction false} ReadsScaled(w: Written)
    requires WellWritten(w) && w.exponent.WrittenExponent?
    ensures DecimalText.Scan(TextOf(w)) ==
      if IsI64(ExponentOf(w.exponent)) then Ok(DecimalText.Number(w.sign == [45], w.integer, w.fraction, ExponentOf(w.exponent)))
      else Err(DecimalText.OutOfRange)
  {
    ReadsMantissa(w);
    FirstIsSign(w);
    ReadsTail(BeforeExponent(w), w.exponent);
    ScanScaled(TextOf(w), DecimalText.Mantissa(w.integer, w.fraction, |BeforeExponent(w)|), ExponentOf(w.exponent));
  }

  lemma {:induction false} ScanPlain(text: Bytes, m: DecimalText.Mantissa)
    requires text != [] && DecimalText.MantissaOf(text) == m && (m.integer != [] || m.fraction != []) && m.end == |text|
    ensures DecimalText.Scan(text) == Ok(DecimalText.Number(text[0] == 45, m.integer, m.fraction, 0))
  {
  }

  lemma {:induction false} ScanScaled(text: Bytes, m: DecimalText.Mantissa, exponent: int)
    requires text != [] && DecimalText.MantissaOf(text) == m && (m.integer != [] || m.fraction != []) && DecimalText.ExponentMark(text, m.end)
    requires DecimalText.ExponentAt(text, m.end + 1) == if IsI64(exponent) then Ok((exponent, |text|)) else Err(DecimalText.OutOfRange)
    ensures DecimalText.Scan(text) ==
      if IsI64(exponent) then Ok(DecimalText.Number(text[0] == 45, m.integer, m.fraction, exponent)) else Err(DecimalText.OutOfRange)
  {
  }

  lemma {:induction false} ReadsTail(before: Bytes, e: WrittenExponent)
    requires e.WrittenExponent? && (e.mark == 69 || e.mark == 101) && IsSign(e.sign) && Digits(e.digits) && e.digits != []
    ensures var text := before + ExponentText(e);
      && DecimalText.ExponentMark(text, |before|)
      && DecimalText.ExponentAt(text, |before| + 1) == if IsI64(ExponentOf(e)) then Ok((ExponentOf(e), |text|)) else Err(DecimalText.OutOfRange)
  {
    assert before + ExponentText(e) == (before + [e.mark]) + (e.sign + e.digits);
    ReadsExponent(before + [e.mark], e);
  }

  lemma {:induction false} MantissaIsWritten(bytes: Bytes) returns (sign: Bytes, point: bool)
    ensures var m := DecimalText.MantissaOf(bytes);
      && IsSign(sign) && Digits(m.integer) && Digits(m.fraction) && (m.fraction != [] ==> point)
      && bytes[..m.end] == sign + m.integer + (if point then [46] + m.fraction else [])
  {
    var m := DecimalText.MantissaOf(bytes);
    var start := if DecimalText.SignAt(bytes, 0) then 1 else 0;
    var end := DecimalText.DigitsEnd(bytes, start);
    sign, point := bytes[..start], end < |bytes| && bytes[end] == 46;
    assert bytes[..end] == sign + m.integer;
    if point {
      CutAt(bytes, end, m.end);
    }
  }

  lemma {:induction false} CutAt(bytes: Bytes, i: nat, j: nat)
    requires i < j <= |bytes|
    ensures bytes[..j] == bytes[..i] + ([bytes[i]] + bytes[i + 1..j])
  {
  }

  /** What a scan that succeeds has seen after the mantissa. */
  predicate TailRead(bytes: Bytes, end: nat)
    requires end <= |bytes|
  {
    if DecimalText.ExponentMark(bytes, end)
    then DecimalText.ExponentAt(bytes, end + 1).Ok? && DecimalText.ExponentAt(bytes, end + 1).value.1 == |bytes| else end == |bytes|
  }

  lemma {:induction false} ScanRead(bytes: Bytes)
    requires DecimalText.Scan(bytes).Ok?
    ensures var m := DecimalText.MantissaOf(bytes); (m.integer != [] || m.fraction != []) && TailRead(bytes, m.end)
  {
  }

  lemma {:induction false} CutInTwo(bytes: Bytes, i: nat)
    requires i <= |bytes|
    ensures bytes == bytes[..i] + bytes[i..]
  {
  }

  /** Whatever is read as a number is well written. */
  lemma {:induction false} NumberIsWritten(bytes: Bytes) returns (w: Written)
    requires DecimalText.Scan(bytes).Ok?
    ensures WellWritten(w) && TextOf(w) == bytes
  {
    ScanRead(bytes);
    var m := DecimalText.MantissaOf(bytes);
    var sign, point := MantissaIsWritten(bytes);
    var exponent := TailIsWritten(bytes, m.end);
    w := Written(sign, m.integer, point, m.fraction, exponent);
    CutInTwo(bytes, m.end);
  }

  lemma {:induction false} TailIsWritten(bytes: Bytes, end: nat) returns (e: WrittenExponent)
    requires end <= |bytes| && TailRead(bytes, end)
    ensures bytes[end..] == ExponentText(e)
    ensures match e
      case NoExponent => true
      case WrittenExponent(mark, sign, digits) => (mark == 69 || mark == 101) && IsSign(sign) && Digits(digits) && digits != []
  {
    if DecimalText.ExponentMark(bytes, end) {
      var found := ExponentIsWritten(bytes, end + 1);
      e := found.(mark := bytes[end]);
      FirstAndRest(bytes, end);
    } else {
      e := NoExponent;
    }
  }

  lemma {:induction false} FirstAndRest(bytes: Bytes, i: nat)
    requires i < |bytes|
    ensures bytes[i..] == [bytes[i]] + bytes[i + 1..]
  {
  }

  lemma {:induction false} ExponentIsWritten(bytes: Bytes, cursor: nat) returns (e: WrittenExponent)
    requires cursor <= |bytes| && DecimalText.ExponentAt(bytes, cursor).Ok? && DecimalText.ExponentAt(bytes, cursor).value.1 == |bytes|
    ensures e.WrittenExponent? && IsSign(e.sign) && Digits(e.digits) && e.digits != [] && bytes[cursor..] == e.sign + e.digits
  {
    var start := if DecimalText.SignAt(bytes, cursor) then cursor + 1 else cursor;
    e := WrittenExponent(69, bytes[cursor..start], bytes[start..]);
    assert bytes[start..|bytes|] == bytes[start..];
  }

  /** A text is read as a number exactly when it is one written out. */
  lemma {:induction false} ScansExactly(bytes: Bytes, n: DecimalText.Number)
    ensures DecimalText.Scan(bytes) == Ok(n) <==> exists w :: Spells(w, bytes, n)
  {
    if DecimalText.Scan(bytes) == Ok(n) {
      var w := NumberIsWritten(bytes);
      ReadsNumber(w);
      assert Spells(w, bytes, n);
    }
    forall w | Spells(w, bytes, n) ensures DecimalText.Scan(bytes) == Ok(n) {
      ReadsNumber(w);
    }
  }

  ghost predicate Spells(w: Written, bytes: Bytes, n: DecimalText.Number) {
    && WellWritten(w) && TextOf(w) == bytes && IsI64(ExponentOf(w.exponent))
    && n == DecimalText.Number(w.sign == [45], w.integer, w.fraction, ExponentOf(w.exponent))
  }

  lemma {:induction false} NaturalText(n: nat)
    ensures var text := DecimalText.NatText(n); Digits(text) && text != [] && (n > 0 ==> text[0] != 48) && (n == 0 ==> text == [48])
  {
    if n >= 10 {
      NaturalText(n / 10);
    }
  }

  lemma {:induction false} Trimmed(digits: Bytes)
    requires Digits(digits)
    ensures var text := DecimalText.TrimZeros(digits);
      Digits(text) && (text != [] ==> text[|text| - 1] != 48)
      && ((exists i :: 0 <= i < |digits| && digits[i] != 48) ==> text != [])
  {
    if digits != [] && digits[|digits| - 1] == 48 {
      Trimmed(digits[..|digits| - 1]);
    }
  }

  /** Atoms are written without an exponent, a plus sign, a superfluous zero or a superfluous point. */
  lemma {:induction false} ShowsDecimal(atoms: i128) returns (w: Written)
    ensures WellWritten(w) && TextOf(w) == DecimalText.Show(atoms) && w.exponent == NoExponent && w.sign == (if atoms < 0 then [45] else [])
    ensures w.integer != [] && (w.integer[0] == 48 ==> w.integer == [48]) && (w.point <==> w.fraction != [])
    ensures w.fraction != [] ==> w.fraction[|w.fraction| - 1] != 48
  {
    DecimalText.BigPower();
    var whole, part := Abs(atoms) / Power10(DecimalText.DECIMAL_SCALE), Abs(atoms) % Power10(DecimalText.DECIMAL_SCALE);
    NaturalText(whole);
    var digits := Padded(part, DecimalText.DECIMAL_SCALE);
    DecimalText.PaddedValue(part, DecimalText.DECIMAL_SCALE);
    DecimalText.ValueBounds(digits);
    Trimmed(digits);
    var fraction := if part == 0 then [] else DecimalText.TrimZeros(digits);
    w := Written(if atoms < 0 then [45] else [], DecimalText.NatText(whole), part != 0, fraction, NoExponent);
    assert TextOf(w) == DecimalText.Show(atoms);
  }

  // ------------------------------------------------------------------- instants

  datatype Zone = Utc | Ahead(hours: nat, minutes: nat) | Behind(hours: nat, minutes: nat)

  /** An instant as it is written; `fraction` has the digits after the point, and no digits is no point. */
  datatype WrittenInstant = WrittenInstant(year: nat, month: nat, day: nat, hour: nat, minute: nat, second: nat, fraction: Bytes, zone: Zone)

  predicate Writable(w: WrittenInstant) {
    && w.year < 10000 && w.month < 100 && w.day < 100 && w.hour < 100 && w.minute < 100 && w.second < 100 && Digits(w.fraction)
    && match w.zone
       case Utc => true
       case Ahead(hours, minutes) => hours < 100 && minutes < 100
       case Behind(hours, minutes) => hours < 100 && minutes < 100
  }

  /** `YYYY-MM-DDThh:mm:ss`. */
  function LocalLayout(w: WrittenInstant): (text: Bytes)
    requires Writable(w)
    ensures |text| == 19
  {
    DateLayout(w.year, w.month, w.day) + [84] + TwoDigits(w.hour) + [58] + TwoDigits(w.minute) + [58] + TwoDigits(w.second)
  }

  function FractionLayout(fraction: Bytes): Bytes {
    if fraction == [] then [] else [46] + fraction
  }

  /** `Z`, `+hh:mm` or `-hh:mm`. */
  function ZoneLayout(zone: Zone): Bytes
    requires zone != Utc ==> zone.hours < 100 && zone.minutes < 100
  {
    match zone
    case Utc => [90]
    case Ahead(hours, minutes) => [43] + TwoDigits(hours) + [58] + TwoDigits(minutes)
    case Behind(hours, minutes) => [45] + TwoDigits(hours) + [58] + TwoDigits(minutes)
  }

  function InstantLayout(w: WrittenInstant): Bytes
    requires Writable(w)
  {
    LocalLayout(w) + FractionLayout(w.fraction) + ZoneLayout(w.zone)
  }

  /** How far local time is ahead of UTC, in seconds. */
  function AheadBy(zone: Zone): int {
    match zone
    case Utc => 0
    case Ahead(hours, minutes) => hours * 3600 + minutes * 60
    case Behind(hours, minutes) => 0 - (hours * 3600 + minutes * 60)
  }

  /** The first six digits, as if there were six. */
  function MicrosOf(fraction: Bytes): nat
    requires Digits(fraction)
  {
    var kept := Min(|fraction|, 6);
    assert DecimalText.AllDigits(fraction[..kept]);
    DecimalText.DigitsValue(fraction[..kept]) * Power10(6 - kept)
  }

  function SaysDay(w: WrittenInstant, days: int): Result<int, InstantText.TimeError> {
    if ValidDate(Civil(w.year, w.month, w.day)) then Ok(days) else Err(InstantText.BadDate)
  }

  function SaysClock(w: WrittenInstant): Result<InstantText.Clock, InstantText.TimeError> {
    if w.hour > 23 || w.minute > 59 || w.second > 59 then Err(InstantText.BadTime) else Ok(InstantText.Clock(w.hour, w.minute, w.second))
  }

  function SaysZone(zone: Zone): Result<int, InstantText.TimeError> {
    if zone != Utc && (zone.hours > 23 || zone.minutes > 59) then Err(InstantText.BadOffset) else Ok(AheadBy(zone))
  }

  ghost function SaysFraction(fraction: Bytes): Result<int, InstantText.TimeError>
    requires Digits(fraction)
  {
    if exists i :: 6 <= i < |fraction| && fraction[i] != 48 then Err(InstantText.PrecisionLoss) else Ok(MicrosOf(fraction))
  }

  /** The instant of its parts, or the first thing wrong with them. */
  function Together(days: Result<int, InstantText.TimeError>, clock: Result<InstantText.Clock, InstantText.TimeError>,
                    ahead: Result<int, InstantText.TimeError>, micros: Result<int, InstantText.TimeError>): Result<int, InstantText.TimeError> {
    match (days, clock, ahead, micros)
    case (Err(e), _, _, _) => Err(e)
    case (_, Err(e), _, _) => Err(e)
    case (_, _, Err(e), _) => Err(e)
    case (_, _, _, Err(e)) => Err(e)
    case (Ok(d), Ok(k), Ok(a), Ok(m)) =>
      var instant := (d * 86400 + k.hour * 3600 + k.minute * 60 + k.second - a) * 1000000 + m;
      if IsI64(instant) then Ok(instant) else Err(InstantText.OutOfRange)
  }

  /** What a written instant says, on a date of that number. */
  ghost function Says(w: WrittenInstant, days: int): Result<int, InstantText.TimeError>
    requires Writable(w)
  {
    Together(SaysDay(w, days), SaysClock(w), SaysZone(w.zone), SaysFraction(w.fraction))
  }

  lemma {:induction false} ReadsTwo(bytes: Bytes, start: nat, n: nat)
    requires n < 100 && start + 2 <= |bytes| && bytes[start..start + 2] == TwoDigits(n)
    ensures ParseDigits(bytes, start, 2) == Some(n)
  {
    PadsTwo(n);
    ReadPadded(bytes, start, n, 2);
  }

  lemma {:induction false} ReadsFour(bytes: Bytes, start: nat, n: nat)
    requires n < 10000 && start + 4 <= |bytes| && bytes[start..start + 4] == FourDigits(n)
    ensures ParseDigits(bytes, start, 4) == Some(n)
  {
    PadsFour(n);
    ReadPadded(bytes, start, n, 4);
  }

  lemma {:induction false} LocalParts(w: WrittenInstant, rest: Bytes)
    requires Writable(w)
    ensures var text := LocalLayout(w) + rest;
      && text[0..4] == FourDigits(w.year) && text[5..7] == TwoDigits(w.month) && text[8..10] == TwoDigits(w.day)
      && text[11..13] == TwoDigits(w.hour) && text[14..16] == TwoDigits(w.minute) && text[17..19] == TwoDigits(w.second)
      && text[4] == text[7] == 45 && text[10] == 84 && text[13] == text[16] == 58
  {
  }

  lemma {:induction false} ReadsLocal(w: WrittenInstant, rest: Bytes)
    requires Writable(w) && rest != []
    ensures var text := LocalLayout(w) + rest;
      && InstantText.Separated(text) && InstantText.ParseClock(text) == SaysClock(w)
      && InstantText.ParseDay(text) == SaysDay(w, DaysFromCivil(Civil(w.year, w.month, w.day)))
  {
    LocalParts(w, rest);
    var text := LocalLayout(w) + rest;
    ReadsFour(text, 0, w.year);
    ReadsTwo(text, 5, w.month);
    ReadsTwo(text, 8, w.day);
    ReadsTwo(text, 11, w.hour);
    ReadsTwo(text, 14, w.minute);
    ReadsTwo(text, 17, w.second);
  }

  lemma {:induction false} ReadsOffset(text: Bytes, start: nat, hours: nat, minutes: nat)
    requires 19 <= start && |text| == start + 6 && InstantText.FindMarker(text, 19) == start && text[start] != 90 && text[start + 3] == 58
    requires ParseDigits(text, start + 1, 2) == Some(hours) && ParseDigits(text, start + 4, 2) == Some(minutes)
    ensures InstantText.ParseOffset(text) == if hours > 23 || minutes > 59 then Err(InstantText.BadOffset)
      else Ok((start, if text[start] == 45 then 0 - (hours * 3600 + minutes * 60) else hours * 3600 + minutes * 60))
  {
  }

  lemma {:induction false} OffsetParts(before: Bytes, sign: byte, hours: nat, minutes: nat)
    requires hours < 100 && minutes < 100
    ensures var text, i := before + ([sign] + TwoDigits(hours) + [58] + TwoDigits(minutes)), |before|;
      && |text| == i + 6 && text[i] == sign && text[i + 3] == 58 && text[..i] == before
      && ParseDigits(text, i + 1, 2) == Some(hours) && ParseDigits(text, i + 4, 2) == Some(minutes)
  {
    var text, i := before + ([sign] + TwoDigits(hours) + [58] + TwoDigits(minutes)), |before|;
    assert text[i + 1..i + 3] == TwoDigits(hours) && text[i + 4..i + 6] == TwoDigits(minutes);
    ReadsTwo(text, i + 1, hours);
    ReadsTwo(text, i + 4, minutes);
  }

  lemma {:induction false} ReadsZone(before: Bytes, zone: Zone)
    requires |before| >= 19 && forall i :: 19 <= i < |before| ==> !InstantText.IsMarker(before[i])
    requires zone != Utc ==> zone.hours < 100 && zone.minutes < 100
    ensures InstantText.ParseOffset(before + ZoneLayout(zone)) ==
      if SaysZone(zone).Err? then Err(SaysZone(zone).error) else Ok((|before|, SaysZone(zone).value))
  {
    var text := before + ZoneLayout(zone);
    assert text[|before|] == ZoneLayout(zone)[0];
    InstantText.MarkerAt(text, 19, |before|);
    if zone != Utc {
      OffsetParts(before, if zone.Ahead? then 43 else 45, zone.hours, zone.minutes);
      ReadsOffset(text, |before|, zone.hours, zone.minutes);
    }
  }

  lemma {:induction false} ReadsDigits(bytes: Bytes, start: nat, length: nat)
    requires start + length <= |bytes| && DecimalText.AllDigits(bytes[start..start + length])
    ensures ParseDigits(bytes, start, length) == Some(DecimalText.DigitsValue(bytes[start..start + length]))
    decreases length
  {
    if length > 0 {
      var digits := bytes[start..start + length];
      assert digits[..length - 1] == bytes[start..start + (length - 1)];
      assert bytes[start + length - 1] == digits[length - 1];
      ReadsDigits(bytes, start, length - 1);
    }
  }

  lemma {:induction false} ScaledIs(n: nat, zeros: nat)
    ensures InstantText.Scaled(n, zeros) == n * Power10(zeros)
  {
    if zeros > 0 {
      ScaledIs(n, zeros - 1);
    }
  }

  lemma {:induction false} FractionAt(text: Bytes, fraction: Bytes)
    requires fraction != [] && Digits(fraction) && |text| >= 20 + |fraction| && text[19] == 46 && text[20..20 + |fraction|] == fraction
    ensures InstantText.ParseFraction(text, 20 + |fraction|) == SaysFraction(fraction)
  {
    var end := 20 + |fraction|;
    forall i | 20 <= i < end ensures text[i] == fraction[i - 20] {
      assert text[i] == text[20..20 + |fraction|][i - 20];
    }
    forall i | 6 <= i < |fraction| && fraction[i] != 48 ensures text[20 + i] != 48 {
    }
    var kept := Min(|fraction|, 6);
    assert text[20..20 + kept] == fraction[..kept];
    ReadsDigits(text, 20, kept);
    ScaledIs(DecimalText.DigitsValue(fraction[..kept]), 6 - kept);
  }

  lemma {:induction false} ReadsFraction(local: Bytes, fraction: Bytes, rest: Bytes)
    requires |local| == 19 && Digits(fraction)
    ensures InstantText.ParseFraction(local + FractionLayout(fraction) + rest, 19 + |FractionLayout(fraction)|) == SaysFraction(fraction)
  {
    var text := local + FractionLayout(fraction) + rest;
    if fraction == [] {
      assert fraction[..0] == [];
    } else {
      assert text == (local + [46]) + fraction + rest;
      SliceIs(local + [46], fraction, rest);
      FractionAt(text, fraction);
    }
  }

  lemma {:induction false} SaysInstant(text: Bytes, days: Result<int, InstantText.TimeError>, clock: Result<InstantText.Clock, InstantText.TimeError>,
                                       ahead: Result<int, InstantText.TimeError>, micros: Result<int, InstantText.TimeError>, start: nat)
    requires InstantText.Separated(text) && 19 <= start <= |text| && InstantText.ParseDay(text) == days && InstantText.ParseClock(text) == clock
    requires InstantText.ParseOffset(text) == if ahead.Err? then Err(ahead.error) else Ok((start, ahead.value))
    requires InstantText.ParseFraction(text, start) == micros
    ensures InstantText.ParseInstant(text) == Together(days, clock, ahead, micros)
  {
  }

  /** A written instant is read as what it says. */
  lemma {:induction false} ReadsInstant(w: WrittenInstant)
    requires Writable(w)
    ensures InstantText.ParseInstant(InstantLayout(w)) == Says(w, DaysFromCivil(Civil(w.year, w.month, w.day)))
  {
    var local, fraction, zone := LocalLayout(w), FractionLayout(w.fraction), ZoneLayout(w.zone);
    var text := local + fraction + zone;
    assert text == local + (fraction + zone);
    ReadsLocal(w, fraction + zone);
    NoMarkers(local, w.fraction);
    ReadsZone(local + fraction, w.zone);
    ReadsFraction(local, w.fraction, zone);
    SaysInstant(text, SaysDay(w, DaysFromCivil(Civil(w.year, w.month, w.day))), SaysClock(w), SaysZone(w.zone), SaysFraction(w.fraction),
                |local + fraction|);
  }

  lemma {:induction false} NoMarkers(local: Bytes, fraction: Bytes)
    requires |local| == 19 && Digits(fraction)
    ensures forall i :: 19 <= i < |local + FractionLayout(fraction)| ==> !InstantText.IsMarker((local + FractionLayout(fraction))[i])
  {
    assert forall i :: 0 <= i < |FractionLayout(fraction)| ==> FractionLayout(fraction)[i] == 46 || 48 <= FractionLayout(fraction)[i] <= 57;
  }

  // What is read as an instant is written out so.

  lemma {:induction false} WrittenTwo(bytes: Bytes, start: nat) returns (n: nat)
    requires start + 2 <= |bytes| && ParseDigits(bytes, start, 2).Some?
    ensures n < 100 && ParseDigits(bytes, start, 2) == Some(n) && bytes[start..start + 2] == TwoDigits(n)
  {
    n := ParseDigits(bytes, start, 2).value;
    ParsedPadded(bytes, start, 2);
    Powers();
    PadsTwo(n);
  }

  lemma {:induction false} WrittenFour(bytes: Bytes, start: nat) returns (n: nat)
    requires start + 4 <= |bytes| && ParseDigits(bytes, start, 4).Some?
    ensures n < 10000 && ParseDigits(bytes, start, 4) == Some(n) && bytes[start..start + 4] == FourDigits(n)
  {
    n := ParseDigits(bytes, start, 4).value;
    ParsedPadded(bytes, start, 4);
    Powers();
    PadsFour(n);
  }

  lemma {:induction false} ZoneIsWritten(bytes: Bytes) returns (start: nat, zone: Zone)
    requires |bytes| >= 20 && InstantText.ParseOffset(bytes).Ok?
    ensures start == InstantText.ParseOffset(bytes).value.0 && 19 <= start < |bytes|
    ensures zone != Utc ==> zone.hours < 100 && zone.minutes < 100
    ensures bytes[start..] == ZoneLayout(zone)
  {
    start, zone := InstantText.ParseOffset(bytes).value.0, Utc;
    assert start == InstantText.FindMarker(bytes, 19);
    if bytes[start] != 90 {
      var hours := WrittenTwo(bytes, start + 1);
      var minutes := WrittenTwo(bytes, start + 4);
      zone := if bytes[start] == 45 then Behind(hours, minutes) else Ahead(hours, minutes);
      assert bytes[start..] == [bytes[start]] + bytes[start + 1..start + 3] + [bytes[start + 3]] + bytes[start + 4..start + 6];
    } else {
      assert bytes[start..] == [90];
    }
  }

  lemma {:induction false} FractionIsWritten(bytes: Bytes, end: nat) returns (fraction: Bytes)
    requires 19 <= end <= |bytes| && InstantText.ParseFraction(bytes, end).Ok?
    ensures Digits(fraction) && bytes[19..end] == FractionLayout(fraction)
  {
    if end == 19 {
      fraction := [];
    } else {
      fraction := bytes[20..end];
      forall i | 0 <= i < |fraction| ensures 48 <= fraction[i] <= 57 {
        assert InstantText.ParseFraction(bytes, end) != Err(InstantText.BadFormat);
        assert fraction[i] == bytes[20 + i] && IsDigit(bytes[20 + i]);
      }
      assert bytes[19..end] == [bytes[19]] + fraction;
    }
  }

  lemma {:induction false} LocalIsWritten(bytes: Bytes) returns (w: WrittenInstant)
    requires InstantText.Separated(bytes) && InstantText.ParseDay(bytes).Ok? && InstantText.ParseClock(bytes).Ok?
    ensures Writable(w) && w.fraction == [] && w.zone == Utc && bytes[..19] == LocalLayout(w)
  {
    var year := WrittenFour(bytes, 0);
    var month := WrittenTwo(bytes, 5);
    var day := WrittenTwo(bytes, 8);
    var hour := WrittenTwo(bytes, 11);
    var minute := WrittenTwo(bytes, 14);
    var second := WrittenTwo(bytes, 17);
    w := WrittenInstant(year, month, day, hour, minute, second, [], Utc);
    assert bytes[..19] == bytes[0..4] + [bytes[4]] + bytes[5..7] + [bytes[7]] + bytes[8..10] + [bytes[10]] + bytes[11..13] + [bytes[13]]
                        + bytes[14..16] + [bytes[16]] + bytes[17..19];
  }

  lemma {:induction false} InstantIsWritten(bytes: Bytes) returns (w: WrittenInstant)
    requires InstantText.ParseInstant(bytes).Ok?
    ensures Writable(w) && InstantLayout(w) == bytes
  {
    var local := LocalIsWritten(bytes);
    var start, zone := ZoneIsWritten(bytes);
    var fraction := FractionIsWritten(bytes, start);
    w := local.(fraction := fraction, zone := zone);
    assert LocalLayout(w) == LocalLayout(local);
    assert bytes == bytes[..19] + bytes[19..start] + bytes[start..];
  }

  ghost predicate SpellsInstant(w: WrittenInstant, bytes: Bytes, instant: int) {
    Writable(w) && InstantLayout(w) == bytes && Says(w, DaysFromCivil(Civil(w.year, w.month, w.day))) == Ok(instant)
  }

  /** A text is read as an instant exactly when it is that instant written out. */
  lemma {:induction false} ParsesInstantExactly(bytes: Bytes, instant: int)
    ensures InstantText.ParseInstant(bytes) == Ok(instant) <==> exists w :: SpellsInstant(w, bytes, instant)
  {
    if InstantText.ParseInstant(bytes) == Ok(instant) {
      var w := InstantIsWritten(bytes);
      ReadsInstant(w);
      assert SpellsInstant(w, bytes, instant);
    }
    forall w | SpellsInstant(w, bytes, instant) ensures InstantText.ParseInstant(bytes) == Ok(instant) {
      ReadsInstant(w);
    }
  }

  lemma {:induction false} ShowsLocal(date: Civil, clock: InstantText.Clock) returns (w: WrittenInstant)
    requires FourDigitYear(date) && InstantText.ValidClock(clock)
    ensures Writable(w) && w.fraction == [] && w.zone == Utc && LocalLayout(w) == DateText(date) + [84] + InstantText.ClockText(clock)
  {
    w := WrittenInstant(date.year, date.month, date.day, clock.hour, clock.minute, clock.second, [], Utc);
    PadsFour(date.year);
    PadsTwo(date.month);
    PadsTwo(date.day);
    PadsTwo(clock.hour);
    PadsTwo(clock.minute);
    PadsTwo(clock.second);
  }

  lemma {:induction false} ShowsZone(offset: int) returns (zone: Zone)
    requires InstantText.ValidOffset(offset)
    ensures zone == if offset < 0 then Behind(Abs(offset) / 60, Abs(offset) % 60) else Ahead(offset / 60, offset % 60)
    ensures zone.hours < 24 && zone.minutes < 60 && ZoneLayout(zone) == InstantText.OffsetText(offset)
  {
    zone := if offset < 0 then Behind(Abs(offset) / 60, Abs(offset) % 60) else Ahead(offset / 60, offset % 60);
    PadsTwo(Abs(offset) / 60);
    PadsTwo(Abs(offset) % 60);
  }

  lemma {:induction false} ShowsParts(date: Civil, clock: InstantText.Clock, micros: int, offset: int) returns (w: WrittenInstant)
    requires FourDigitYear(date) && InstantText.ValidClock(clock) && 0 <= micros < 1000000 && InstantText.ValidOffset(offset)
    ensures Writable(w) && InstantLayout(w) == InstantText.InstantTextOf(date, clock, micros, offset) && |w.fraction| == 6
    ensures w.zone == if offset < 0 then Behind(Abs(offset) / 60, Abs(offset) % 60) else Ahead(offset / 60, offset % 60)
  {
    Powers();
    InstantText.PaddedDigits(micros, 6);
    var local := ShowsLocal(date, clock);
    var zone := ShowsZone(offset);
    w := local.(fraction := Padded(micros, 6), zone := zone);
    assert LocalLayout(w) == LocalLayout(local);
  }

  /** An instant is shown with six digits, at its offset in hours and minutes. */
  lemma {:induction false} ShowsInstant(instant: i64, offset: int) returns (w: WrittenInstant)
    requires InstantText.ValidOffset(offset) && InstantText.ShowInstant(instant, offset).Ok?
    ensures Writable(w) && InstantLayout(w) == InstantText.ShowInstant(instant, offset).value && |w.fraction| == 6
    ensures w.zone == if offset < 0 then Behind(Abs(offset) / 60, Abs(offset) % 60) else Ahead(offset / 60, offset % 60)
  {
    var date, days, clock, micros := InstantText.ShownParts(instant, offset);
    w := ShowsParts(date, clock, micros, offset);
  }
}
