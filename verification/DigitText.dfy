/** Decimal digits of a fixed width. Text is its bytes. */
module DigitText {
  import opened Wrappers
  import opened MachineIntegers

  const DOT: byte := 46
  const PLUS: byte := 43
  const MINUS: byte := 45

  predicate IsDigit(b: byte) {
    48 <= b <= 57
  }

  function Digit(n: int): byte
    requires 0 <= n < 10
  {
    48 + n
  }

  lemma {:induction false} Powers()
    ensures Power10(2) == 100 && Power10(4) == 10000 && Power10(6) == 1000000
  {
    assert Power10(3) == 1000 && Power10(5) == 100000;
  }

  /** `n` in exactly `width` digits. */
  function Padded(n: nat, width: nat): (text: Bytes)
    requires n < Power10(width)
    ensures |text| == width
    decreases width
  {
    if width == 0 then [] else Padded(n / 10, width - 1) + [Digit(n % 10)]
  }

  /** The number in `length` digits from `start`, or nothing when one is missing. */
  function ParseDigits(bytes: Bytes, start: nat, length: nat): (r: Option<nat>)
    decreases length
  {
    if length == 0 then Some(0)
    else if start + length > |bytes| || !IsDigit(bytes[start + length - 1]) then None
    else match ParseDigits(bytes, start, length - 1)
      case None => None
      case Some(n) => Some(10 * n + (bytes[start + length - 1] - 48) as int)
  }

  lemma {:induction false} ReadPadded(bytes: Bytes, start: nat, n: nat, width: nat)
    requires n < Power10(width) && start + width <= |bytes| && bytes[start..start + width] == Padded(n, width)
    ensures ParseDigits(bytes, start, width) == Some(n)
    decreases width
  {
    if width > 0 {
      assert bytes[start + width - 1] == bytes[start..start + width][width - 1] == Digit(n % 10);
      assert bytes[start..start + (width - 1)] == bytes[start..start + width][..width - 1] == Padded(n / 10, width - 1);
      ReadPadded(bytes, start, n / 10, width - 1);
    }
  }

  lemma {:induction false} ParsedPadded(bytes: Bytes, start: nat, width: nat)
    requires start + width <= |bytes| && ParseDigits(bytes, start, width).Some?
    ensures var n := ParseDigits(bytes, start, width).value;
      n < Power10(width) && bytes[start..start + width] == Padded(n, width)
    decreases width
  {
    if width > 0 {
      ParsedPadded(bytes, start, width - 1);
      var n, init := ParseDigits(bytes, start, width).value, ParseDigits(bytes, start, width - 1).value;
      var last: int := bytes[start + width - 1] - 48;
      assert n / 10 == init && n % 10 == last;
      assert bytes[start..start + width] == bytes[start..start + (width - 1)] + [bytes[start + width - 1]];
    }
  }
}
