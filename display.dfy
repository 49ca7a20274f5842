/**
 * Two three-digit seven-segment displays driven through a BCD decoder and a digit
 * counter: the foreground writes digits and flags, and a periodic callback
 * (display_check) advances a position counter over the six digits and drives the pins
 * for the digit at that position.
 */
module Display {
  import opened Common

  const DISPLAYS: int := 2
  const DIGITS: int := 3
  const POSITIONS: int := DISPLAYS * DIGITS

  /** The pulse display_check gives the digit counter chip: RST at position 0, CK elsewhere. */
  datatype Pulse = Reset | Clock

  /** Pin levels left by one display_check: the pulse, BCD inputs A..D and the decimal point. */
  datatype DisplayPins = DisplayPins(pulse: Pulse, a: bool, b: bool, c: bool, d: bool, dp: bool)

  /** The hundreds, tens and units of a number below 1000, as display_write stores them. */
  function Digits(n: nat): (ds: seq<u8>)
    requires n < 1000
    ensures |ds| == DIGITS
    ensures forall k :: 0 <= k < DIGITS ==> ds[k] < 10
    ensures Value(ds) == n
  {
    [n / 100, (n / 10) % 10, n % 10]
  }

  /** The number three decimal digits stand for. */
  function Value(ds: seq<u8>): int
    requires |ds| == DIGITS
  {
    100 * (ds[0] as int) + 10 * (ds[1] as int) + ds[2] as int
  }

  /** Decimal digits are unique: any three digits with value n are Digits(n). */
  lemma DigitsUnique(ds: seq<u8>)
    requires |ds| == DIGITS && forall k :: 0 <= k < DIGITS ==> ds[k] < 10
    ensures Value(ds) < 1000 && Digits(Value(ds)) == ds
  {
    var n := Value(ds);
    assert n / 100 == ds[0];
    assert n % 100 == 10 * ds[1] + ds[2];
    assert n / 10 == 10 * ds[0] + ds[1];
  }

  /** display_decode_number for a powered digit and display_blank_digit for an unpowered one. */
  function Shown(position: int, digit: u8, powered: bool, dpOn: bool): (p: DisplayPins)
    ensures p.pulse == (if position == 0 then Reset else Clock)
    ensures powered ==> Bcd(p) == digit % 16 && p.dp == dpOn
    ensures !powered ==> p.a && p.b && p.c && p.d && !p.dp
  {
    var pulse := if position == 0 then Reset else Clock;
    if powered then
      LowNibbleBits(digit);
      DisplayPins(pulse, digit % 2 == 1, (digit / 2) % 2 == 1, (digit / 4) % 2 == 1, (digit / 8) % 2 == 1, dpOn)
    else
      DisplayPins(pulse, true, true, true, true, false)
  }

  /** The value on the BCD inputs, A being the least significant bit. */
  function Bcd(p: DisplayPins): int
  {
    (if p.a then 1 else 0) + 2 * (if p.b then 1 else 0) + 4 * (if p.c then 1 else 0) + 8 * (if p.d then 1 else 0)
  }

  /** A decimal digit is shown on a powered display exactly as it was written. */
  lemma ShownDigit(position: int, digit: u8, dpOn: bool)
    requires digit < 10
    ensures Bcd(Shown(position, digit, true, dpOn)) == digit
  {
  }

  /** The position display_check shows: the counter is advanced first, modulo six. */
  function NextPosition(position: int): (next: int)
    requires 0 <= position < POSITIONS
    ensures 0 <= next < POSITIONS
    ensures next == 0 <==> position == POSITIONS - 1
  {
    (position + 1) % POSITIONS
  }

  /** The position after `k` calls of display_check from reset. */
  function PositionAfter(k: nat): (p: int)
    ensures 0 <= p < POSITIONS
  {
    if k == 0 then 0 else NextPosition(PositionAfter(k - 1))
  }

  /** After k calls the counter is k mod 6: the first call shows position 1 and RST comes every sixth call. */
  lemma {:induction false} PositionCycles(k: nat)
    ensures PositionAfter(k) == k % POSITIONS
  {
    if k > 0 {
      PositionCycles(k - 1);
      ModSuccessor(k - 1, POSITIONS);
      assert PositionAfter(k) == (PositionAfter(k - 1) + 1) % POSITIONS;
    }
  }

  /** The module state of display.c: the number, decimal-point and power buffers and the digit counter. */
  class Displays {
    var numbers: array2<u8>
    /** The dp buffer holds only 0 and 1, so it is modelled as booleans. */
    var dp: array2<bool>
    /** The power state holds only 0 and 1, so it is modelled as booleans. */
    var power: array<bool>
    var digitCounter: int

    ghost predicate Valid()
      reads this
    {
      && numbers.Length0 == DISPLAYS && numbers.Length1 == DIGITS
      && dp.Length0 == DISPLAYS && dp.Length1 == DIGITS
      && power.Length == DISPLAYS
      && 0 <= digitCounter < POSITIONS
    }

    constructor ()
      ensures Valid() && fresh(numbers) && fresh(dp) && fresh(power) && digitCounter == 0
      ensures forall d, k :: 0 <= d < DISPLAYS && 0 <= k < DIGITS ==> numbers[d, k] == 0 && !dp[d, k]
      ensures forall d :: 0 <= d < DISPLAYS ==> !power[d]
    {
      numbers := new u8[DISPLAYS, DIGITS]((_, _) => 0);
      dp := new bool[DISPLAYS, DIGITS]((_, _) => false);
      power := new bool[DISPLAYS](_ => false);
      digitCounter := 0;
    }

    /** display_off: an index above 1 is ignored. */
    method Off(display: u8)
      requires Valid()
      modifies power
      ensures Valid()
      ensures forall d :: 0 <= d < DISPLAYS ==> power[d] == (if d == display then false else old(power[d]))
    {
      if display > 1 {
        return;
      }
      power[display] := false;
    }

    /** display_on: an index above 1 is ignored. */
    method On(display: u8)
      requires Valid()
      modifies power
      ensures Valid()
      ensures forall d :: 0 <= d < DISPLAYS ==> power[d] == (if d == display then true else old(power[d]))
    {
      if display > 1 {
        return;
      }
      power[display] := true;
    }

    /** display_write: the hundreds, tens and units of `number % 1000` replace the display's row. */
    method Write(display: u8, number: u32)
      requires Valid()
      modifies numbers
      ensures Valid()
      ensures display < DISPLAYS ==> forall k :: 0 <= k < DIGITS ==> numbers[display, k] == Digits(number % 1000)[k]
      ensures forall d, k :: 0 <= d < DISPLAYS && d != display && 0 <= k < DIGITS ==> numbers[d, k] == old(numbers[d, k])
    {
      if display >= DISPLAYS {
        return;
      }
      var aux := 1;
      var counter := 1;
      while counter < DIGITS
        invariant 1 <= counter <= DIGITS
        invariant aux == if counter == 1 then 1 else if counter == 2 then 10 else 100
      {
        aux := aux * 10;
        counter := counter + 1;
      }
      var n := number % (aux * 10);
      counter := 0;
      while counter < DIGITS
        invariant 0 <= counter <= DIGITS
        invariant aux == if counter == 0 then 100 else if counter == 1 then 10 else if counter == 2 then 1 else 0
        invariant forall k :: 0 <= k < counter ==> numbers[display, k] == Digits(n)[k]
        invariant forall d, k :: 0 <= d < DISPLAYS && 0 <= k < DIGITS && (d != display || k >= counter) ==>
          numbers[d, k] == old(numbers[d, k])
      {
        numbers[display, counter] := (n / aux) % 10;
        aux := aux / 10;
        counter := counter + 1;
      }
    }

    /** display_set_dp: an out-of-range display or digit is ignored. */
    method SetDp(display: u8, digit: u8)
      requires Valid()
      modifies dp
      ensures Valid()
      ensures forall d, k :: 0 <= d < DISPLAYS && 0 <= k < DIGITS ==>
        dp[d, k] == (if d == display && k == digit then true else old(dp[d, k]))
    {
      if display >= DISPLAYS || digit >= DIGITS {
        return;
      }
      dp[display, digit] := true;
    }

    /** display_clear_dp: an out-of-range display or digit is ignored. */
    method ClearDp(display: u8, digit: u8)
      requires Valid()
      modifies dp
      ensures Valid()
      ensures forall d, k :: 0 <= d < DISPLAYS && 0 <= k < DIGITS ==>
        dp[d, k] == (if d == display && k == digit then false else old(dp[d, k]))
    {
      if display >= DISPLAYS || digit >= DIGITS {
        return;
      }
      dp[display, digit] := false;
    }

    /** display_check: advances the position, then shows display position/3, digit position%3. */
    method Check() returns (pins: DisplayPins)
      requires Valid()
      modifies this
      ensures Valid()
      ensures digitCounter == NextPosition(old(digitCounter))
      ensures pins == Shown(digitCounter, numbers[digitCounter / DIGITS, digitCounter % DIGITS],
                            power[digitCounter / DIGITS], dp[digitCounter / DIGITS, digitCounter % DIGITS])
      ensures numbers == old(numbers) && dp == old(dp) && power == old(power)
    {
      digitCounter := (digitCounter + 1) % POSITIONS;
      var thisNumber := numbers[digitCounter / DIGITS, digitCounter % DIGITS];
      var pulse := if digitCounter == 0 then Reset else Clock;
      if power[digitCounter / DIGITS] {
        pins := DecodeNumber(pulse, thisNumber, dp[digitCounter / DIGITS, digitCounter % DIGITS]);
      } else {
        pins := DisplayPins(pulse, true, true, true, true, false);
      }
    }

    /** display_decode_number followed by the decimal point: bits 3..0 of the digit drive D..A. */
    static method DecodeNumber(pulse: Pulse, number: u8, dpOn: bool) returns (pins: DisplayPins)
      ensures Bcd(pins) == number % 16 && pins.dp == dpOn && pins.pulse == pulse
    {
      var d := (number / 8) % 2 == 1;
      var c := (number / 4) % 2 == 1;
      var b := (number / 2) % 2 == 1;
      var a := number % 2 == 1;
      LowNibbleBits(number);
      pins := DisplayPins(pulse, a, b, c, d, dpOn);
    }
  }

  /**
   * From reset, display 0 powered and showing 725: the first call gives the tens digit 2
   * with a CK pulse, and the sixth call gives the hundreds digit 7 with a RST pulse.
   */
  method WriteThenScan() returns (first: DisplayPins, sixth: DisplayPins)
    ensures first.pulse == Clock && Bcd(first) == 2
    ensures sixth.pulse == Reset && Bcd(sixth) == 7
  {
    var ds := new Displays();
    ds.On(0);
    ds.Write(0, 725);
    first := ds.Check();
    var i := 1;
    while i < POSITIONS - 1
      invariant 1 <= i <= POSITIONS - 1 && ds.Valid() && ds.digitCounter == i
      invariant ds.numbers[0, 0] == 7 && ds.power[0]
    {
      var ignored := ds.Check();
      i := i + 1;
    }
    sixth := ds.Check();
  }
}
