/**
 * The thermometer: every 25 ms a conversion is started; each valid ADC result goes into
 * a ten-sample ring, and every tenth result the truncated mean of the ring is turned
 * into milli-degrees Celsius by linear interpolation in a counts-to-temperature table.
 */
module Thermometer {
  import opened Common

  const SAMPLES: int := 10
  const CONVERSION_PERIOD_MSEC: int := 25
  const INT32_MIN: int := -0x8000_0000
  const INT32_MAX: int := 0x7FFF_FFFF

  /** One row of conversion_table: a temperature in milli-degrees and its ADC counts. */
  datatype Entry = Entry(temperature: int, counts: int)

  const TABLE_LENGTH: int := 45

  /** Row `i` of conversion_table: its temperature in milli-degrees Celsius and its ADC counts. */
  function Row(i: nat): (r: Entry)
    requires i < TABLE_LENGTH
    ensures -70000 <= r.temperature <= 150000 && MIN_COUNTS <= r.counts <= MAX_COUNTS
  {
    match i
      case 0 => Entry(-70000, 4085)
      case 1 => Entry(-65000, 4080)
      case 2 => Entry(-60000, 4072)
      case 3 => Entry(-55000, 4061)
      case 4 => Entry(-50000, 4045)
      case 5 => Entry(-45000, 4022)
      case 6 => Entry(-40000, 3990)
      case 7 => Entry(-35000, 3948)
      case 8 => Entry(-30000, 3893)
      case 9 => Entry(-25000, 3821)
      case 10 => Entry(-20000, 3730)
      case 11 => Entry(-15000, 3618)
      case 12 => Entry(-10000, 3483)
      case 13 => Entry(-5000, 3325)
      case 14 => Entry(0, 3145)
      case 15 => Entry(5000, 2945)
      case 16 => Entry(10000, 2729)
      case 17 => Entry(15000, 2504)
      case 18 => Entry(20000, 2274)
      case 19 => Entry(25000, 2047)
      case 20 => Entry(30000, 1827)
      case 21 => Entry(35000, 1619)
      case 22 => Entry(40000, 1426)
      case 23 => Entry(45000, 1250)
      case 24 => Entry(50000, 1091)
      case 25 => Entry(55000, 950)
      case 26 => Entry(60000, 826)
      case 27 => Entry(65000, 718)
      case 28 => Entry(70000, 624)
      case 29 => Entry(75000, 542)
      case 30 => Entry(80000, 472)
      case 31 => Entry(85000, 411)
      case 32 => Entry(90000, 359)
      case 33 => Entry(95000, 314)
      case 34 => Entry(100000, 275)
      case 35 => Entry(105000, 242)
      case 36 => Entry(110000, 213)
      case 37 => Entry(115000, 188)
      case 38 => Entry(120000, 166)
      case 39 => Entry(125000, 147)
      case 40 => Entry(130000, 131)
      case 41 => Entry(135000, 117)
      case 42 => Entry(140000, 104)
      case 43 => Entry(145000, 93)
      case _ => Entry(150000, 84)
  }

  const MIN_COUNTS: int := 84
  const MAX_COUNTS: int := 4085

  /** Neighbouring rows: 5000 milli-degrees apart, counts falling by 1 to 230. */
  lemma RowStep(i: int)
    requires 0 < i < TABLE_LENGTH
    ensures Row(i).temperature - Row(i - 1).temperature == 5000
    ensures 0 < Row(i - 1).counts - Row(i).counts <= 230
  {
  }

  /** Row `i` is for -70 degrees plus 5 degrees per row. */
  lemma RowTemperature(i: nat)
    requires i < TABLE_LENGTH
    ensures Row(i).temperature == -70000 + 5000 * i
  {
  }

  /**
   * The shape of the table: 45 rows from (-70000, 4085) to (150000, 84), temperatures
   * 5000 apart, counts strictly falling by at most 230 from one row to the next.
   */
  lemma TableShape()
    ensures Row(0) == Entry(-70000, MAX_COUNTS) && Row(44) == Entry(150000, MIN_COUNTS)
    ensures forall i :: 0 <= i < TABLE_LENGTH ==> Row(i).temperature == -70000 + 5000 * i
    ensures forall i :: 0 < i < TABLE_LENGTH ==> 0 < Row(i - 1).counts - Row(i).counts <= 230
  {
    forall i | 0 <= i < TABLE_LENGTH
      ensures Row(i).temperature == -70000 + 5000 * i
    {
      RowTemperature(i);
    }
    forall i | 0 < i < TABLE_LENGTH
      ensures 0 < Row(i - 1).counts - Row(i).counts <= 230
    {
      RowStep(i);
    }
  }

  /** Counts fall along the whole table, not only between neighbours. */
  lemma {:induction false} CountsFall(i: int, j: int)
    requires 0 <= i <= j < TABLE_LENGTH
    ensures Row(i).counts >= Row(j).counts
    ensures i < j ==> Row(i).counts > Row(j).counts
    decreases j - i
  {
    TableShape();
    if i < j {
      CountsFall(i, j - 1);
    }
  }

  /** The first row at or after `i` whose counts do not exceed `avg`. */
  function BracketFrom(avg: int, i: nat): (c: nat)
    requires i < TABLE_LENGTH && MIN_COUNTS <= avg
    ensures i <= c < TABLE_LENGTH && Row(c).counts <= avg
    ensures forall j :: i <= j < c ==> Row(j).counts > avg
    decreases TABLE_LENGTH - i
  {
    if Row(i).counts <= avg || i == TABLE_LENGTH - 1 then i else BracketFrom(avg, i + 1)
  }

  /** The row the search of adc_conversion_finished stops at: the first with counts <= avg. */
  function Bracket(avg: int): (c: nat)
    requires MIN_COUNTS <= avg <= MAX_COUNTS
    ensures c < TABLE_LENGTH && Row(c).counts <= avg
    ensures forall j :: 0 <= j < c ==> Row(j).counts > avg
    ensures c == 0 ==> avg == MAX_COUNTS
    ensures c > 0 ==> avg < Row(c - 1).counts
  {
    BracketFrom(avg, 0)
  }

  /**
   * Linear interpolation between two rows, truncating towards zero as C's division of
   * positive numbers does: the result lies above the colder row and at most the warmer one.
   */
  function Lerp(prev: Entry, cur: Entry, avg: int): (t: int)
    requires prev.temperature < cur.temperature && cur.counts < avg < prev.counts
    ensures prev.temperature < t <= cur.temperature
  {
    var rise := cur.temperature - prev.temperature;
    QuotientBelow(rise * (avg - cur.counts), rise, avg - cur.counts, prev.counts - cur.counts);
    cur.temperature - rise * (avg - cur.counts) / (prev.counts - cur.counts)
  }

  /** Off the table points the reading is the interpolation between the bracketing rows. */
  lemma Between(avg: int, c: nat)
    requires MIN_COUNTS <= avg <= MAX_COUNTS && c == Bracket(avg) && Row(c).counts != avg
    ensures c > 0
    ensures Row(c - 1).temperature < Row(c).temperature
    ensures Row(c).counts < avg < Row(c - 1).counts
    ensures Interpolated(avg) == Lerp(Row(c - 1), Row(c), avg)
  {
    assert c > 0;
    RowStep(c);
  }

  /** Within one bracket, more counts give a lower or equal temperature. */
  lemma LerpMonotone(prev: Entry, cur: Entry, a: int, b: int)
    requires prev.temperature < cur.temperature && cur.counts < a <= b < prev.counts
    ensures Lerp(prev, cur, a) >= Lerp(prev, cur, b)
  {
    var rise := cur.temperature - prev.temperature;
    MulAtLeast(rise, a - cur.counts, b - cur.counts);
    DivMonotone(rise * (a - cur.counts), rise * (b - cur.counts), prev.counts - cur.counts);
  }

  /** The temperature adc_conversion_finished assigns for a mean of `avg` counts. */
  function Interpolated(avg: int): (t: int)
    requires MIN_COUNTS <= avg <= MAX_COUNTS
    ensures var c := Bracket(avg);
      Row(c).counts == avg ==> t == Row(c).temperature
    ensures var c := Bracket(avg);
      Row(c).counts != avg ==> c > 0 && Row(c - 1).temperature < t <= Row(c).temperature
    ensures -70000 <= t <= 150000
  {
    var c := Bracket(avg);
    RowTemperature(c);
    if Row(c).counts == avg then Row(c).temperature
    else
      RowStep(c);
      var prev, cur := Row(c - 1), Row(c);
      var t := Lerp(prev, cur, avg);
      assert prev.temperature < t <= cur.temperature;
      t
  }

  /** (r * k) / s is at most r - 1 when 0 <= k < s; the interpolation stays inside its bracket. */
  lemma QuotientBelow(p: int, r: int, k: int, s: int)
    requires 0 < r && 0 <= k < s && p == r * k
    ensures 0 <= p / s < r
  {
    MulAtLeast(r, k, s - 1);
    var q := p / s;
    assert s * q + p % s == p;
    if q >= r {
      MulAtLeast(s, r, q);
      assert false;
    }
  }


  /** At every table point the reading is that row's temperature exactly. */
  lemma ExactAtTablePoints(i: int)
    requires 0 <= i < TABLE_LENGTH
    ensures MIN_COUNTS <= Row(i).counts <= MAX_COUNTS
    ensures Interpolated(Row(i).counts) == Row(i).temperature
  {
    CountsFall(0, i);
    CountsFall(i, TABLE_LENGTH - 1);
    var avg := Row(i).counts;
    var c := Bracket(avg);
    if c < i {
      CountsFall(c, i);
      assert false;
    }
    assert c == i;
    assert Interpolated(avg) == Row(c).temperature;
  }

  /** More counts never read as a higher temperature: the reading is non-increasing in the mean. */
  lemma Monotone(a: int, b: int)
    requires MIN_COUNTS <= a <= b <= MAX_COUNTS
    ensures Interpolated(a) >= Interpolated(b)
  {
    assert Bracket(b) <= Bracket(a) by {
      assert Row(Bracket(a)).counts <= b;
    }
    if Bracket(a) == Bracket(b) {
      MonotoneWithin(a, b);
    } else {
      MonotoneAcross(a, b);
    }
  }

  /** Two means in the same bracket: the interpolation falls along the bracket. */
  lemma MonotoneWithin(a: int, b: int)
    requires MIN_COUNTS <= a <= b <= MAX_COUNTS && Bracket(a) == Bracket(b)
    ensures Interpolated(a) >= Interpolated(b)
  {
    var c := Bracket(a);
    if Row(c).counts == a {
      ReadingBounds(b);
      RowTemperature(c);
    } else {
      var prev, cur := Row(c - 1), Row(c);
      assert prev.temperature < cur.temperature && cur.counts < a <= b < prev.counts by {
        RowStep(c);
      }
      assert Interpolated(a) == Lerp(prev, cur, a) by {
        Between(a, c);
      }
      assert Interpolated(b) == Lerp(prev, cur, b) by {
        Between(b, c);
      }
      LerpMonotone(prev, cur, a, b);
    }
  }

  /** Two means in different brackets: a row's temperature separates the two readings. */
  lemma MonotoneAcross(a: int, b: int)
    requires MIN_COUNTS <= a <= b <= MAX_COUNTS && Bracket(b) < Bracket(a)
    ensures Interpolated(a) >= Interpolated(b)
  {
    ReadingBounds(a);
    ReadingBounds(b);
  }

  /** The reading for a mean lies above the row before its bracket and at most its bracket's row. */
  lemma ReadingBounds(avg: int)
    requires MIN_COUNTS <= avg <= MAX_COUNTS
    ensures Interpolated(avg) <= -70000 + 5000 * Bracket(avg)
    ensures Bracket(avg) > 0 ==> Interpolated(avg) > -70000 + 5000 * (Bracket(avg) - 1)
  {
    var c := Bracket(avg);
    RowTemperature(c);
    if c > 0 {
      RowStep(c);
    }
  }

  /** The sum of the buffered samples, added first to last: at most 0xFFFF per sample. */
  function Sum(s: seq<u16>): (r: int)
    ensures 0 <= r <= |s| * 0xFFFF
  {
    if s == [] then 0 else Sum(s[..|s| - 1]) + s[|s| - 1]
  }

  /** The truncated mean of the ring, as adc_conversion_finished computes it. */
  function Mean(s: seq<u16>): (m: int)
    requires |s| == SAMPLES
    ensures 0 <= m <= 0xFFFF
    ensures SAMPLES * m <= Sum(s) < SAMPLES * (m + 1)
  {
    Sum(s) / SAMPLES
  }

  /** The position of msec_counter after `k` calls of termometro_check from reset. */
  function CounterAfter(k: nat): (m: int)
    ensures 0 <= m < CONVERSION_PERIOD_MSEC
  {
    if k == 0 then 0 else (CounterAfter(k - 1) + 1) % CONVERSION_PERIOD_MSEC
  }

  /** A conversion is started on the k-th call exactly when k is a multiple of 25. */
  lemma {:induction false} StartsEvery25th(k: nat)
    ensures CounterAfter(k) == k % CONVERSION_PERIOD_MSEC
    ensures k > 0 ==> (CounterAfter(k) == 0 <==> k % CONVERSION_PERIOD_MSEC == 0)
  {
    if k > 0 {
      StartsEvery25th(k - 1);
      ModSuccessor(k - 1, CONVERSION_PERIOD_MSEC);
      assert CounterAfter(k) == (CounterAfter(k - 1) + 1) % CONVERSION_PERIOD_MSEC;
    }
  }

  /** termometro_read: the int32 reading returned as uint32 (two's complement reinterpretation). */
  function AsUnsigned(t: int): (r: u32)
    requires INT32_MIN <= t <= INT32_MAX
    ensures t >= 0 ==> r == t
    ensures t < 0 ==> r == t + U32_MODULUS
  {
    t % U32_MODULUS
  }

  /** The module state of termometro.c: the sample ring, its index, the reading and the period counter. */
  class Sensor {
    /** conversion_buffer is uint32 but only ever holds 16-bit ADC results. */
    var samples: array<u16>
    var idx: int
    var temperature: int
    var msecCounter: int

    ghost predicate Valid()
      reads this
    {
      && samples.Length == SAMPLES
      && 0 <= idx < SAMPLES
      && -70000 <= temperature <= 150000
      && 0 <= msecCounter < CONVERSION_PERIOD_MSEC
    }

    constructor ()
      ensures Valid() && fresh(samples) && idx == 0 && temperature == 0 && msecCounter == 0
    ensures samples[..] == seq(SAMPLES, _ => 0)
    {
      samples := new u16[SAMPLES](_ => 0);
      idx, temperature, msecCounter := 0, 0, 0;
    }

    /** termometro_check: true when this call starts a conversion. */
    method Check() returns (start: bool)
      requires Valid()
      modifies this
      ensures Valid() && samples == old(samples) && idx == old(idx) && temperature == old(temperature)
      ensures msecCounter == (old(msecCounter) + 1) % CONVERSION_PERIOD_MSEC
      ensures start <==> msecCounter == 0
    {
      msecCounter := (msecCounter + 1) % CONVERSION_PERIOD_MSEC;
      start := msecCounter == 0;
    }

    /** termometro_read. */
    method Read() returns (r: u32)
      requires Valid()
      ensures r == AsUnsigned(temperature)
    {
      r := temperature % U32_MODULUS;
    }

    /**
     * adc_conversion_finished, with the sequence result as input (None when it is not
     * valid). A completed round must average within the table's counts.
     */
    method ConversionFinished(result: Option<u16>)
      requires Valid()
      requires result.Some? && idx == SAMPLES - 1 ==>
        MIN_COUNTS <= Mean(samples[..SAMPLES - 1] + [result.value]) <= MAX_COUNTS
      modifies this, samples
      ensures Valid() && samples == old(samples) && msecCounter == old(msecCounter)
      ensures result.None? ==> idx == old(idx) && temperature == old(temperature) && samples[..] == old(samples[..])
      ensures result.Some? ==>
        && samples[..] == old(samples[..])[old(idx) := result.value]
        && idx == (old(idx) + 1) % SAMPLES
        && temperature == if idx == 0 then Interpolated(Mean(samples[..])) else old(temperature)
    {
      if result.None? {
        return;
      }
      samples[idx] := result.value;
      idx := (idx + 1) % SAMPLES;
      if idx == 0 {
        assert samples[..] == old(samples[..SAMPLES - 1]) + [result.value];
        var avg := Average();
        var c := FindBracket(avg);
        temperature := Interpolate(avg, c);
      }
    }

    /** The averaging loop: the truncated mean of the ten samples. */
    method Average() returns (avg: int)
      requires samples.Length == SAMPLES
      ensures avg == Mean(samples[..])
    {
      var sum := 0;
      var counter := 0;
      while counter < SAMPLES
        invariant 0 <= counter <= SAMPLES
        invariant sum == Sum(samples[..counter])
      {
        assert samples[..counter + 1][..counter] == samples[..counter];
        sum := sum + samples[counter];
        counter := counter + 1;
      }
      assert samples[..SAMPLES] == samples[..];
      avg := sum / SAMPLES;
    }
  }

  /** The search loop: the first row whose counts do not exceed the mean. */
  method FindBracket(avg: int) returns (counter: nat)
    requires MIN_COUNTS <= avg <= MAX_COUNTS
    ensures counter == Bracket(avg)
  {
    TableShape();
    counter := 0;
    while counter <= TABLE_LENGTH
      invariant counter <= Bracket(avg)
      invariant forall j :: 0 <= j < counter ==> Row(j).counts > avg
      decreases TABLE_LENGTH - counter
    {
      if Row(counter).counts <= avg {
        break;
      }
      counter := counter + 1;
    }
  }

  /** The interpolation of adc_conversion_finished, in the source's integer steps. */
  method Interpolate(avg: int, counter: nat) returns (t: int)
    requires MIN_COUNTS <= avg <= MAX_COUNTS && counter == Bracket(avg)
    ensures t == Interpolated(avg)
  {
    if counter == 0 {
      // The mean is at most 4085 here, so row 0 matches exactly; row -1 is never read.
      t := Row(counter).temperature;
    } else if Row(counter).counts == avg {
      t := Row(counter).temperature;
    } else {
      Between(avg, counter);
      RowStep(counter);
      t := LerpStep(Row(counter - 1), Row(counter), avg);
    }
  }

  /**
   * One interpolation step of adc_conversion_finished on int32 values: with rows 5000
   * milli-degrees and at most 230 counts apart the product cannot wrap, so the step is Lerp.
   */
  method LerpStep(prev: Entry, cur: Entry, avg: int) returns (t: int)
    requires cur.temperature - prev.temperature == 5000 && cur.counts < avg < prev.counts
    requires prev.counts - cur.counts <= 230
    ensures t == Lerp(prev, cur, avg)
  {
    t := cur.temperature - prev.temperature;
    t := t * (avg - cur.counts);
    // 5000 times less than 230: the 32-bit product cannot wrap.
    MulAtLeast(5000, avg - cur.counts, 230);
    assert 0 <= t < INT32_MAX;
    t := t / (prev.counts - cur.counts);
    t := cur.temperature - t;
  }
}
