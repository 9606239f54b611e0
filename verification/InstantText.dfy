/** Instants, in microseconds from the Unix epoch, as ISO 8601 text with an offset. Text is its bytes. */
module InstantText {
  import opened Wrappers
  import opened MachineIntegers
  import opened CivilDate
  import opened DigitText
  import opened CalendarText

  datatype TimeError = BadFormat | BadDate | BadTime | BadOffset | PrecisionLoss | OutOfRange

  // ------------------------------------------------------------------ parsing

  predicate IsMarker(b: byte) {
    b == CAPITAL_Z || b == PLUS || b == MINUS
  }

  /** The first offset marker from `i` on, or the length. */
  function FindMarker(bytes: Bytes, i: nat): (r: nat)
    requires i <= |bytes|
    ensures i <= r <= |bytes| && (r < |bytes| ==> IsMarker(bytes[r]))
    ensures forall j :: i <= j < r ==> !IsMarker(bytes[j])
    decreases |bytes| - i
  {
    if i == |bytes| || IsMarker(bytes[i]) then i else FindMarker(bytes, i + 1)
  }

  /** Where the offset starts, and the offset in seconds. */
  function ParseOffset(bytes: Bytes): (r: Result<(nat, int), TimeError>)
    requires |bytes| >= 20
    ensures r.Ok? ==> 19 <= r.value.0 < |bytes|
  {
    var start := FindMarker(bytes, 19);
    if start == |bytes| then Err(BadFormat)
    else if bytes[start] == CAPITAL_Z then (if start + 1 == |bytes| then Ok((start, 0)) else Err(BadFormat))
    else if start + 6 != |bytes| || bytes[start + 3] != COLON then Err(BadOffset)
    else match (ParseDigits(bytes, start + 1, 2), ParseDigits(bytes, start + 4, 2))
      case (Some(hours), Some(minutes)) =>
        if hours > 23 || minutes > 59 then Err(BadOffset) else
        var magnitude: int := hours * 3600 + minutes * 60;
        Ok((start, if bytes[start] == MINUS then 0 - magnitude else magnitude))
      case _ => Err(BadOffset)
  }

  /** `n` with `zeros` more digits. */
  function Scaled(n: nat, zeros: nat): nat {
    if zeros == 0 then n else 10 * Scaled(n, zeros - 1)
  }

  /** Digits past the sixth may only be zeros. */
  function ParseFraction(bytes: Bytes, end: nat): Result<int, TimeError>
    requires 19 <= end <= |bytes|
  {
    if end == 19 then Ok(0)
    else if bytes[19] != DOT || end == 20 then Err(BadFormat)
    else if exists i :: 20 <= i < end && !IsDigit(bytes[i]) then Err(BadFormat)
    else if exists i :: 26 <= i < end && bytes[i] != 48 then Err(PrecisionLoss)
    else
      var kept := Min(end - 20, 6);
      match ParseDigits(bytes, 20, kept)
      case None => Err(BadFormat)
      case Some(n) => Ok(Scaled(n, 6 - kept))
  }

  /** The loops of the source: six digits at most, then zeros for the missing ones. */
  method ReadFraction(bytes: Bytes, end: nat) returns (r: Result<int, TimeError>)
    requires 19 <= end <= |bytes|
    ensures r == ParseFraction(bytes, end)
  {
    if end == 19 {
      return Ok(0);
    }
    if bytes[19] != DOT || end == 20 {
      return Err(BadFormat);
    }
    for i := 20 to end
      invariant forall j :: 20 <= j < i ==> IsDigit(bytes[j])
    {
      if !IsDigit(bytes[i]) {
        return Err(BadFormat);
      }
    }
    var zero := 26;
    while zero < end
      invariant forall j :: 26 <= j < zero && j < end ==> bytes[j] == 48
    {
      if bytes[zero] != 48 {
        return Err(PrecisionLoss);
      }
      zero := zero + 1;
    }
    var microseconds: nat, i := 0, 20;
    while i < end && i < 26
      invariant 20 <= i <= end && i <= 26
      invariant ParseDigits(bytes, 20, i - 20) == Some(microseconds)
    {
      var digit: int := bytes[i] - 48;
      microseconds := microseconds * 10 + digit;
      i := i + 1;
    }
    ghost var read, kept := microseconds, i - 20;
    for k := i - 20 to 6
      invariant microseconds == Scaled(read, k - kept)
    {
      microseconds := microseconds * 10;
    }
    return Ok(microseconds);
  }

  datatype Clock = Clock(hour: int, minute: int, second: int)

  predicate ValidClock(k: Clock) {
    0 <= k.hour <= 23 && 0 <= k.minute <= 59 && 0 <= k.second <= 59
  }

  predicate Separated(bytes: Bytes) {
    |bytes| >= 20 && bytes[4] == bytes[7] == MINUS && bytes[10] == CAPITAL_T && bytes[13] == bytes[16] == COLON
  }

  function ParseDay(bytes: Bytes): Result<int, TimeError>
    requires Separated(bytes)
  {
    match (ParseDigits(bytes, 0, 4), ParseDigits(bytes, 5, 2), ParseDigits(bytes, 8, 2))
    case (Some(year), Some(month), Some(day)) =>
      if ValidDate(Civil(year, month, day)) then Ok(DaysFromCivil(Civil(year, month, day))) else Err(BadDate)
    case _ => Err(BadFormat)
  }

  function ParseClock(bytes: Bytes): Result<Clock, TimeError>
    requires Separated(bytes)
  {
    match (ParseDigits(bytes, 11, 2), ParseDigits(bytes, 14, 2), ParseDigits(bytes, 17, 2))
    case (Some(hour), Some(minute), Some(second)) =>
      if ValidClock(Clock(hour, minute, second)) then Ok(Clock(hour, minute, second)) else Err(BadTime)
    case _ => Err(BadFormat)
  }

  function Seconds(days: int, k: Clock, offset: int): int {
    days * 86400 + k.hour * 3600 + k.minute * 60 + k.second - offset
  }

  function ParseInstant(bytes: Bytes): Result<int, TimeError> {
    if !Separated(bytes) then Err(BadFormat) else
    var days :- ParseDay(bytes);
    var clock :- ParseClock(bytes);
    var offset :- ParseOffset(bytes);
    var microseconds :- ParseFraction(bytes, offset.0);
    var instant := Seconds(days, clock, offset.1) * 1000000 + microseconds;
    if IsI64(instant) then Ok(instant) else Err(TimeError.OutOfRange)
  }

  // ------------------------------------------------------------------ printing

  predicate ValidOffset(minutes: int) {
    -1439 <= minutes <= 1439
  }

  const MIN_MATCH_TIME: int := -62167219200000000
  const MAX_MATCH_TIME: int := 253402300799999999

  predicate Representable(instant: int) {
    MIN_MATCH_TIME <= instant <= MAX_MATCH_TIME
  }

  function ClockText(k: Clock): (text: Bytes)
    requires ValidClock(k)
    ensures |text| == 8
  {
    Powers();
    Padded(k.hour, 2) + [COLON] + Padded(k.minute, 2) + [COLON] + Padded(k.second, 2)
  }

  function OffsetText(minutes: int): (text: Bytes)
    requires ValidOffset(minutes)
    ensures |text| == 6
  {
    Powers();
    [if minutes < 0 then MINUS else PLUS] + Padded(Abs(minutes) / 60, 2) + [COLON] + Padded(Abs(minutes) % 60, 2)
  }

  function ClockOf(seconds: int): Clock {
    Clock(seconds / 3600, seconds % 3600 / 60, seconds % 60)
  }

  /** An instant shown at an offset: only local years of four digits can be. */
  function ShowInstant(instant: i64, offset: int): Result<Bytes, ()>
    requires ValidOffset(offset)
  {
    var local := instant + offset * 60 * 1000000;
    if !IsI64(local) then Err(()) else
    var seconds := local / 1000000;
    DaysRoundTrip(seconds / 86400);
    var date := CivilFromDays(seconds / 86400);
    if !(0 <= date.year <= 9999) then Err(())
    else
      Ok(InstantTextOf(date, ClockOf(seconds % 86400), local % 1000000, offset))
  }

  function InstantTextOf(date: Civil, clock: Clock, micros: int, offset: int): (text: Bytes)
    requires FourDigitYear(date) && ValidClock(clock) && 0 <= micros < 1000000 && ValidOffset(offset)
    ensures |text| == 32
  {
    Powers();
    DateText(date) + [CAPITAL_T] + ClockText(clock) + [DOT] + Padded(micros, 6) + OffsetText(offset)
  }

  // ---------------------------------------------------------------- round trip

  lemma {:induction false} Sliced(bytes: Bytes, part: Bytes, start: nat, from: nat, length: nat)
    requires start + |part| <= |bytes| && bytes[start..start + |part|] == part
    requires from + length <= |part|
    ensures ParseDigits(bytes, start + from, length) == ParseDigits(part, from, length)
    decreases length
  {
    if length > 0 {
      assert bytes[start + from + length - 1] == bytes[start..start + |part|][from + length - 1];
      Sliced(bytes, part, start, from, length - 1);
    }
  }

  /** The parts of a printed instant, where the parser looks for them. */
  ghost predicate Printed(text: Bytes, date: Civil, clock: Clock, micros: int, offset: int)
    requires FourDigitYear(date) && ValidClock(clock) && 0 <= micros < 1000000 && ValidOffset(offset)
  {
    Powers();
    && |text| == 32 && text[0..10] == DateText(date) && text[10] == CAPITAL_T && text[11..19] == ClockText(clock) && text[19] == DOT
    && text[20..26] == Padded(micros, 6) && text[26..32] == OffsetText(offset)
  }

  lemma {:induction false} ReadClock(k: Clock)
    requires ValidClock(k)
    ensures var text := ClockText(k);
      && ParseDigits(text, 0, 2) == Some(k.hour) && ParseDigits(text, 3, 2) == Some(k.minute) && ParseDigits(text, 6, 2) == Some(k.second)
      && text[2] == text[5] == COLON
  {
    Powers();
    var text := ClockText(k);
    assert text[0..2] == Padded(k.hour, 2) && text[3..5] == Padded(k.minute, 2) && text[6..8] == Padded(k.second, 2);
    ReadPadded(text, 0, k.hour, 2);
    ReadPadded(text, 3, k.minute, 2);
    ReadPadded(text, 6, k.second, 2);
  }

  lemma {:induction false} ReadOffsetText(minutes: int)
    requires ValidOffset(minutes)
    ensures var text := OffsetText(minutes);
      && ParseDigits(text, 1, 2) == Some(Abs(minutes) / 60) && ParseDigits(text, 4, 2) == Some(Abs(minutes) % 60)
      && text[0] == (if minutes < 0 then MINUS else PLUS) && text[3] == COLON
  {
    Powers();
    var text := OffsetText(minutes);
    assert text[1..3] == Padded(Abs(minutes) / 60, 2) && text[4..6] == Padded(Abs(minutes) % 60, 2);
    ReadPadded(text, 1, Abs(minutes) / 60, 2);
    ReadPadded(text, 4, Abs(minutes) % 60, 2);
  }

  lemma {:induction false} PaddedDigits(n: nat, width: nat)
    requires n < Power10(width)
    ensures forall i :: 0 <= i < width ==> IsDigit(Padded(n, width)[i])
    decreases width
  {
    if width > 0 {
      PaddedDigits(n / 10, width - 1);
    }
  }

  lemma {:induction false} ParsePrintedDay(text: Bytes, date: Civil)
    requires FourDigitYear(date) && ValidDate(date) && Separated(text) && text[0..10] == DateText(date)
    ensures ParseDay(text) == Ok(DaysFromCivil(date))
  {
    DateTextParts(date);
    var part := DateText(date);
    Sliced(text, part, 0, 0, 4);
    Sliced(text, part, 0, 5, 2);
    Sliced(text, part, 0, 8, 2);
  }

  lemma {:induction false} ParsePrintedClock(text: Bytes, clock: Clock)
    requires ValidClock(clock) && Separated(text) && text[11..19] == ClockText(clock)
    ensures ParseClock(text) == Ok(clock)
  {
    ReadClock(clock);
    var k := ClockText(clock);
    Sliced(text, k, 11, 0, 2);
    Sliced(text, k, 11, 3, 2);
    Sliced(text, k, 11, 6, 2);
  }

  lemma {:induction false} PrintedSeparated(text: Bytes, date: Civil, clock: Clock)
    requires FourDigitYear(date) && ValidClock(clock) && |text| == 32
    requires text[0..10] == DateText(date) && text[10] == CAPITAL_T && text[11..19] == ClockText(clock)
    ensures Separated(text)
  {
    DateTextParts(date);
    ReadClock(clock);
    var part, k := DateText(date), ClockText(clock);
    assert text[4] == part[4] && text[7] == part[7] && text[13] == k[2] && text[16] == k[5];
  }

  lemma {:induction false} ParsePaddedFraction(text: Bytes, micros: nat, width: nat)
    requires width == 6 && 20 + width <= |text| && text[19] == DOT
    requires micros < Power10(width) && text[20..20 + width] == Padded(micros, width)
    ensures ParseFraction(text, 20 + width) == Ok(micros) && forall i :: 19 <= i < 20 + width ==> !IsMarker(text[i])
  {
    PaddedDigits(micros, width);
    forall i | 20 <= i < 20 + width ensures IsDigit(text[i]) {
      assert text[i] == text[20..20 + width][i - 20];
    }
    ReadPadded(text, 20, micros, width);
    assert Scaled(micros, 0) == micros;
  }

  lemma {:induction false} ParsePrintedFraction(text: Bytes, date: Civil, clock: Clock, micros: int, offset: int)
    requires FourDigitYear(date) && ValidClock(clock) && 0 <= micros < 1000000 && ValidOffset(offset)
    requires Printed(text, date, clock, micros, offset)
    ensures ParseFraction(text, 26) == Ok(micros) && forall i :: 19 <= i < 26 ==> !IsMarker(text[i])
  {
    Powers();
    ParsePaddedFraction(text, micros, 6);
  }

  lemma {:induction false} ParsePrintedOffset(text: Bytes, offset: int)
    requires ValidOffset(offset) && |text| == 32 && text[26..32] == OffsetText(offset)
    requires forall i :: 19 <= i < 26 ==> !IsMarker(text[i])
    ensures ParseOffset(text) == Ok((26, offset * 60))
  {
    var part := OffsetText(offset);
    ReadOffsetText(offset);
    assert text[26] == part[0] && text[29] == part[3];
    MarkerAt(text, 19, 26);
    Sliced(text, part, 26, 1, 2);
    Sliced(text, part, 26, 4, 2);
    MinutesAdd(offset);
    OffsetCase(text, 26, Abs(offset) / 60, Abs(offset) % 60);
  }

  lemma {:induction false} MarkerAt(bytes: Bytes, i: nat, at: nat)
    requires i <= at < |bytes| && IsMarker(bytes[at]) && forall j :: i <= j < at ==> !IsMarker(bytes[j])
    ensures FindMarker(bytes, i) == at
  {
  }

  lemma {:induction false} OffsetCase(bytes: Bytes, start: nat, hours: nat, minutes: nat)
    requires |bytes| == start + 6 && start >= 19 && FindMarker(bytes, 19) == start && (bytes[start] == MINUS || bytes[start] == PLUS)
    requires bytes[start + 3] == COLON && hours <= 23 && minutes <= 59
    requires ParseDigits(bytes, start + 1, 2) == Some(hours) && ParseDigits(bytes, start + 4, 2) == Some(minutes)
    ensures ParseOffset(bytes) == Ok((start, if bytes[start] == MINUS then 0 - (hours * 3600 + minutes * 60) else hours * 3600 + minutes * 60))
  {
  }

  lemma {:induction false} MinutesAdd(offset: int)
    requires ValidOffset(offset)
    ensures var hours, minutes := Abs(offset) / 60, Abs(offset) % 60;
      hours <= 23 && minutes <= 59 && (if offset < 0 then 0 - (hours * 3600 + minutes * 60) else hours * 3600 + minutes * 60) == offset * 60
  {
  }

  lemma {:induction false} InstantTextParts(date: Civil, clock: Clock, micros: int, offset: int)
    requires FourDigitYear(date) && ValidClock(clock) && 0 <= micros < 1000000 && ValidOffset(offset)
    ensures Printed(InstantTextOf(date, clock, micros, offset), date, clock, micros, offset)
  {
    Powers();
    Parts(DateText(date), CAPITAL_T, ClockText(clock), DOT, Padded(micros, 6), OffsetText(offset));
  }

  lemma {:induction false} Parts(a: Bytes, t: byte, b: Bytes, d: byte, c: Bytes, e: Bytes)
    requires |a| == 10 && |b| == 8 && |c| == 6 && |e| == 6
    ensures var text := a + [t] + b + [d] + c + e;
      && |text| == 32 && text[0..10] == a && text[10] == t && text[11..19] == b && text[19] == d && text[20..26] == c && text[26..32] == e
  {
  }

  lemma {:induction false} ClockSums(seconds: int)
    requires 0 <= seconds < 86400
    ensures var k := ClockOf(seconds); ValidClock(k) && seconds == k.hour * 3600 + k.minute * 60 + k.second
  {
    assert seconds % 60 == (seconds % 3600) % 60;
  }

  lemma {:induction false} LocalSums(instant: int, offset: int)
    ensures var local := instant + offset * 60 * 1000000;
      var seconds := local / 1000000;
      && ValidClock(ClockOf(seconds % 86400)) && 0 <= local % 1000000 < 1000000
      && Seconds(seconds / 86400, ClockOf(seconds % 86400), offset * 60) * 1000000 + local % 1000000 == instant
  {
    ClockSums((instant + offset * 60 * 1000000) / 1000000 % 86400);
  }

  lemma {:induction false} Combined(bytes: Bytes, days: int, clock: Clock, start: nat, offset: int, micros: int, instant: i64)
    requires Separated(bytes) && ParseDay(bytes) == Ok(days) && ParseClock(bytes) == Ok(clock)
    requires ParseOffset(bytes) == Ok((start, offset)) && ParseFraction(bytes, start) == Ok(micros)
    requires Seconds(days, clock, offset) * 1000000 + micros == instant
    ensures ParseInstant(bytes) == Ok(instant)
  {
  }

  /** What is printed is parsed, part by part. */
  lemma {:induction false} ParsePrinted(text: Bytes, date: Civil, days: int, clock: Clock, micros: int, offset: int, instant: i64)
    requires FourDigitYear(date) && ValidDate(date) && ValidClock(clock) && 0 <= micros < 1000000 && ValidOffset(offset)
    requires DaysFromCivil(date) == days && text == InstantTextOf(date, clock, micros, offset)
    requires Seconds(days, clock, offset * 60) * 1000000 + micros == instant
    ensures ParseInstant(text) == Ok(instant)
  {
    InstantTextParts(date, clock, micros, offset);
    PrintedSeparated(text, date, clock);
    ParsePrintedDay(text, date);
    ParsePrintedClock(text, clock);
    ParsePrintedFraction(text, date, clock, micros, offset);
    ParsePrintedOffset(text, offset);
    Combined(text, days, clock, 26, offset * 60, micros, instant);
  }

  /** A shown instant, taken apart. */
  lemma {:induction false} ShownParts(instant: i64, offset: int) returns (date: Civil, days: int, clock: Clock, micros: int)
    requires ValidOffset(offset) && ShowInstant(instant, offset).Ok?
    ensures FourDigitYear(date) && ValidDate(date) && ValidClock(clock) && 0 <= micros < 1000000
    ensures DaysFromCivil(date) == days && Seconds(days, clock, offset * 60) * 1000000 + micros == instant
    ensures ShowInstant(instant, offset).value == InstantTextOf(date, clock, micros, offset)
  {
    LocalSums(instant, offset);
    var local := instant + offset * 60 * 1000000;
    days, clock, micros := local / 1000000 / 86400, ClockOf(local / 1000000 % 86400), local % 1000000;
    date := ShownDate(days);
  }

  lemma {:induction false} ShownDate(days: int) returns (date: Civil)
    ensures date == CivilFromDays(days) && ValidDate(date) && DaysFromCivil(date) == days
  {
    DaysRoundTrip(days);
    date := CivilFromDays(days);
  }

  /** Every instant that can be shown at an offset is what its text parses to. */
  lemma {:induction false} ParseInvertsShowInstant(instant: i64, offset: int)
    requires ValidOffset(offset) && ShowInstant(instant, offset).Ok?
    ensures ParseInstant(ShowInstant(instant, offset).value) == Ok(instant)
  {
    var text := ShowInstant(instant, offset).value;
    var date, days, clock, micros := ShownParts(instant, offset);
    ParsePrinted(text, date, days, clock, micros, offset, instant);
  }

  lemma {:induction false} DayBounds(instant: int)
    ensures MIN_EPOCH_DAYS <= instant / 1000000 / 86400 <= MAX_EPOCH_DAYS <==> Representable(instant)
  {
  }

  /** The range that event frames accept is exactly what can be shown in UTC. */
  lemma {:induction false} RepresentableExactly(instant: i64)
    ensures Representable(instant) <==> ShowInstant(instant, 0).Ok?
  {
    DayBounds(instant);
    var date := ShownDate(instant / 1000000 / 86400);
    FourDigitYears(date);
  }
}
