/** Dates and instants as text. Text is its bytes. */
module CalendarText {
  import opened Wrappers
  import opened MachineIntegers
  import opened CivilDate
  import opened DigitText

  const COLON: byte := 58
  const CAPITAL_T: byte := 84
  const CAPITAL_Z: byte := 90

  // -------------------------------------------------------------------- dates

  datatype DateError = InvalidFormat | InvalidDate | OutOfRange

  function ParseDate(bytes: Bytes): Result<int, DateError> {
    if |bytes| != 10 || bytes[4] != MINUS || bytes[7] != MINUS then Err(InvalidFormat)
    else match (ParseDigits(bytes, 0, 4), ParseDigits(bytes, 5, 2), ParseDigits(bytes, 8, 2))
      case (Some(year), Some(month), Some(day)) =>
        if !ValidDate(Civil(year, month, day)) then Err(InvalidDate) else
        var days := DaysFromCivil(Civil(year, month, day));
        if MIN_EPOCH_DAYS <= days <= MAX_EPOCH_DAYS then Ok(days) else Err(DateError.OutOfRange)
      case _ => Err(InvalidFormat)
  }

  predicate FourDigitYear(c: Civil) {
    0 <= c.year <= 9999 && 1 <= c.month <= 12 && 1 <= c.day <= 31
  }

  function DateText(c: Civil): (text: Bytes)
    requires FourDigitYear(c)
    ensures |text| == 10
  {
    Powers();
    Padded(c.year, 4) + [MINUS] + Padded(c.month, 2) + [MINUS] + Padded(c.day, 2)
  }

  /** The first and the last date of four-digit years bound the day numbers. */
  lemma {:induction false} FourDigitYears(c: Civil)
    requires ValidDate(c)
    ensures 0 <= c.year <= 9999 <==> MIN_EPOCH_DAYS <= DaysFromCivil(c) <= MAX_EPOCH_DAYS
  {
    var first, last := Civil(0, 1, 1), Civil(9999, 12, 31);
    assert DaysFromCivil(first) == MIN_EPOCH_DAYS && DaysFromCivil(last) == MAX_EPOCH_DAYS;
    if c.year < 0 {
      DaysIncrease(c, first);
    } else if c.year > 9999 {
      DaysIncrease(last, c);
    } else {
      if c != first {
        DaysIncrease(first, c);
      }
      if c != last {
        DaysIncrease(c, last);
      }
    }
  }

  function ShowDate(days: int): Bytes
    requires MIN_EPOCH_DAYS <= days <= MAX_EPOCH_DAYS
  {
    DaysRoundTrip(days); FourDigitYears(CivilFromDays(days));
    DateText(CivilFromDays(days))
  }

  lemma {:induction false} DateTextParts(c: Civil)
    requires FourDigitYear(c)
    ensures var text := DateText(c);
      && ParseDigits(text, 0, 4) == Some(c.year) && ParseDigits(text, 5, 2) == Some(c.month) && ParseDigits(text, 8, 2) == Some(c.day)
      && text[4] == text[7] == MINUS
  {
    Powers();
    var text := DateText(c);
    assert text[0..4] == Padded(c.year, 4) && text[5..7] == Padded(c.month, 2) && text[8..10] == Padded(c.day, 2);
    ReadPadded(text, 0, c.year, 4);
    ReadPadded(text, 5, c.month, 2);
    ReadPadded(text, 8, c.day, 2);
  }

  lemma {:induction false} DateTextOfParts(bytes: Bytes, c: Civil)
    requires |bytes| == 10 && bytes[4] == bytes[7] == MINUS && ValidDate(c)
    requires ParseDigits(bytes, 0, 4) == Some(c.year) && ParseDigits(bytes, 5, 2) == Some(c.month) && ParseDigits(bytes, 8, 2) == Some(c.day)
    ensures FourDigitYear(c) && bytes == DateText(c)
  {
    Powers();
    ParsedPadded(bytes, 0, 4);
    ParsedPadded(bytes, 5, 2);
    ParsedPadded(bytes, 8, 2);
    assert bytes == bytes[0..4] + [bytes[4]] + bytes[5..7] + [bytes[7]] + bytes[8..10];
  }

  /** Every trading date is what its text parses to. */
  lemma {:induction false} ParseInvertsShowDate(days: int)
    requires MIN_EPOCH_DAYS <= days <= MAX_EPOCH_DAYS
    ensures ParseDate(ShowDate(days)) == Ok(days)
  {
    DaysRoundTrip(days);
    FourDigitYears(CivilFromDays(days));
    DateTextParts(CivilFromDays(days));
  }

  /** Every accepted text is the text of the date it parses to, and no date of four digits is out of range. */
  lemma {:induction false} ShowInvertsParseDate(bytes: Bytes)
    ensures ParseDate(bytes) != Err(DateError.OutOfRange)
    ensures ParseDate(bytes).Ok? ==>
      MIN_EPOCH_DAYS <= ParseDate(bytes).value <= MAX_EPOCH_DAYS && ShowDate(ParseDate(bytes).value) == bytes
  {
    if |bytes| == 10 && bytes[4] == bytes[7] == MINUS
       && ParseDigits(bytes, 0, 4).Some? && ParseDigits(bytes, 5, 2).Some? && ParseDigits(bytes, 8, 2).Some? {
      var c := Civil(ParseDigits(bytes, 0, 4).value, ParseDigits(bytes, 5, 2).value, ParseDigits(bytes, 8, 2).value);
      if ValidDate(c) {
        DateTextOfParts(bytes, c);
        FourDigitYears(c);
        CivilRoundTrip(c);
      }
    }
  }
}
