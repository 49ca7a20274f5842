/**
 * The SysTick driver: hal_systick_init turns a tick period in microseconds into the
 * 24-bit reload value for the main clock, and a single callback slot is invoked on every
 * SysTick interrupt. The system clock is a parameter; the SYSTICK registers are fields.
 */
module SysTick {
  import opened Common

  const RELOAD_LIMIT: int := 0x100_0000
  const U64_MODULUS: int := 0x1_0000_0000_0000_0000

  /** The callback slot: the dummy handler or a registered callback, by identity. */
  datatype Callback = Dummy | Registered(id: nat)

  /** Main-clock cycles in `tickUs` microseconds, at the source's precision of clock / 10. */
  function Cycles(clock: u32, tickUs: u32): (q: int)
    ensures q >= 0
    ensures 100_000 * q <= (clock / 10) * tickUs < 100_000 * (q + 1)
  {
    (clock / 10) * tickUs / 100_000
  }

  /**
   * The reload value hal_systick_init computes as written: the product of line 28 is
   * 32-bit and wraps, the decrement of a zero quotient wraps, and anything from 2^24 up
   * is clamped to 2^24 - 1.
   */
  function ReloadAsWritten(clock: u32, tickUs: u32): (r: u32)
    ensures r < RELOAD_LIMIT
  {
    var product := ((clock / 10) * tickUs) % U32_MODULUS;
    var aux := (product / 100_000 - 1) % U32_MODULUS;
    if aux >= RELOAD_LIMIT then RELOAD_LIMIT - 1 else aux
  }

  /**
   * The reload value the comment at line 29 intends: the product is never truncated. The
   * counter then counts r + 1 cycles per tick; a zero quotient still wraps to the limit.
   */
  function Reload(clock: u32, tickUs: u32): (r: int)
    ensures 0 <= r < RELOAD_LIMIT
    ensures Cycles(clock, tickUs) == 0 ==> r == RELOAD_LIMIT - 1
    ensures 1 <= Cycles(clock, tickUs) <= RELOAD_LIMIT ==> r + 1 == Cycles(clock, tickUs)
    ensures Cycles(clock, tickUs) > RELOAD_LIMIT ==> r == RELOAD_LIMIT - 1
  {
    var q := Cycles(clock, tickUs);
    if q == 0 || q - 1 >= RELOAD_LIMIT then RELOAD_LIMIT - 1 else q - 1
  }

  /**
   * Where nothing is clamped, the period of r + 1 cycles at the clock / 10 precision is at
   * most the requested tick and less than one more cycle's worth of it.
   */
  lemma PeriodMatchesTick(clock: u32, tickUs: u32)
    requires 1 <= Cycles(clock, tickUs) <= RELOAD_LIMIT
    ensures 100_000 * (Reload(clock, tickUs) + 1) <= (clock / 10) * tickUs
    ensures (clock / 10) * tickUs < 100_000 * (Reload(clock, tickUs) + 2)
  {
  }

  /** Without a 32-bit overflow of the product the code as written computes the intended value. */
  lemma AgreeWithoutWrap(clock: u32, tickUs: u32)
    requires (clock / 10) * tickUs < U32_MODULUS
    ensures ReloadAsWritten(clock, tickUs) == Reload(clock, tickUs)
  {
    var q := Cycles(clock, tickUs);
    assert ((clock / 10) * tickUs) % U32_MODULUS == (clock / 10) * tickUs;
    if q == 0 {
      assert (q - 1) % U32_MODULUS == U32_MODULUS - 1;
    } else {
      assert (q - 1) % U32_MODULUS == q - 1;
    }
  }

  /** The examples' settings, 12 MHz and 1000 us, give the reload 11999 either way. */
  lemma ReloadAtOneMillisecond()
    ensures ReloadAsWritten(12_000_000, 1000) == 11999
    ensures Reload(12_000_000, 1000) == 11999
  {
    assert Cycles(12_000_000, 1000) == 12000;
  }

  /** A zero tick wraps the decrement and is clamped to the largest reload. */
  lemma ZeroTick(clock: u32)
    ensures ReloadAsWritten(clock, 0) == RELOAD_LIMIT - 1
    ensures Reload(clock, 0) == RELOAD_LIMIT - 1
  {
    assert (0 / 100_000 - 1) % U32_MODULUS == U32_MODULUS - 1;
  }

  /**
   * A 4 ms tick at 12 MHz: 1200000 * 4000 wraps modulo 2^32 to 505032704, so the code as
   * written reloads 5049 (about 0.42 ms) instead of 47999.
   */
  lemma WrapAtFourMilliseconds()
    ensures (12_000_000 / 10) * 4000 >= U32_MODULUS
    ensures ReloadAsWritten(12_000_000, 4000) == 5049
    ensures Reload(12_000_000, 4000) == 47999
  {
    assert ((12_000_000 / 10) * 4000) % U32_MODULUS == 505_032_704;
    assert Cycles(12_000_000, 4000) == 48000;
  }

  /** The wrap breaks monotonicity: the 3 ms tick gets a longer period than the 4 ms one. */
  lemma AsWrittenNotMonotone()
    ensures ReloadAsWritten(12_000_000, 3000) == 35999
    ensures ReloadAsWritten(12_000_000, 3000) > ReloadAsWritten(12_000_000, 4000)
  {
    WrapAtFourMilliseconds();
    assert ((12_000_000 / 10) * 3000) % U32_MODULUS == 3_600_000_000;
  }

  /** The intended reload never decreases with the tick, once the quotient is not zero. */
  lemma ReloadMonotone(clock: u32, t1: u32, t2: u32)
    requires t1 <= t2 && 1 <= Cycles(clock, t1)
    ensures Reload(clock, t1) <= Reload(clock, t2)
  {
    var c := clock / 10;
    assert c * t2 - c * t1 == c * (t2 - t1);
    DivMonotone(c * t1, c * t2, 100_000);
  }

  /** A 32-bit value divided by 10 times a 32-bit value fits in 64 bits. */
  lemma ProductFits(clock: u32, tickUs: u32)
    ensures 0 <= (clock / 10) * tickUs < U64_MODULUS
  {
    var c := clock / 10;
    assert c <= 429_496_729;
    assert 429_496_729 * tickUs - c * tickUs == (429_496_729 - c) * tickUs;
  }

  /** The SysTick state: the callback slot, the reload register and whether it counts. */
  class SysTickDriver {
    var callback: Callback
    var reload: int
    var counting: bool

    ghost predicate Valid()
      reads this
    {
      0 <= reload < RELOAD_LIMIT
    }

    /** Before hal_systick_init: the dummy handler is in the slot and the counter is stopped. */
    constructor ()
      ensures Valid() && callback == Dummy && reload == 0 && !counting
    {
      callback := Dummy;
      reload := 0;
      counting := false;
    }

    /**
     * hal_systick_init as written: every step in 32 bits, so the product of line 28 wraps;
     * then the reload is clamped, the counter enabled and the callback stored.
     */
    method Init(clock: u32, tickUs: u32, cb: Callback)
      requires Valid()
      modifies this
      ensures Valid()
      ensures reload == ReloadAsWritten(clock, tickUs) && callback == cb && counting
    {
      var aux := clock / 10;
      aux := (aux * tickUs) % U32_MODULUS;
      aux := aux / 100_000;
      aux := (aux - 1) % U32_MODULUS;
      if aux >= RELOAD_LIMIT {
        aux := RELOAD_LIMIT - 1;
      }
      reload := aux;
      counting := true;
      callback := cb;
    }

    /**
     * hal_systick_init with the product widened to 64 bits, as the comment at line 29
     * intends: the stored reload is then the intended one.
     */
    method InitIntended(clock: u32, tickUs: u32, cb: Callback)
      requires Valid()
      modifies this
      ensures Valid()
      ensures reload == Reload(clock, tickUs) && callback == cb && counting
    {
      ProductFits(clock, tickUs);
      var aux := clock / 10;
      aux := aux * tickUs;
      assert aux < U64_MODULUS;
      aux := aux / 100_000;
      assert aux == Cycles(clock, tickUs);
      aux := (aux - 1) % U64_MODULUS;
      if aux >= RELOAD_LIMIT {
        aux := RELOAD_LIMIT - 1;
      }
      reload := aux;
      counting := true;
      callback := cb;
    }

    /** hal_systick_update_callback: only the slot changes. */
    method UpdateCallback(cb: Callback)
      requires Valid()
      modifies this
      ensures Valid()
      ensures callback == cb && reload == old(reload) && counting == old(counting)
    {
      callback := cb;
    }

    /** SysTick_Handler: invokes whatever the slot holds and changes nothing. */
    method Handler() returns (invoked: Callback)
      requires Valid()
      ensures invoked == callback
    {
      invoked := callback;
    }
  }

  /**
   * A tick before init runs the dummy handler; init at 12 MHz and 1 ms installs the
   * callback with reload 11999, and an update replaces it.
   */
  method InitThenUpdate() returns (beforeInit: Callback, afterInit: Callback, afterUpdate: Callback, reload: int)
    ensures beforeInit == Dummy && afterInit == Registered(1) && afterUpdate == Registered(2)
    ensures reload == 11999
  {
    var driver := new SysTickDriver();
    beforeInit := driver.Handler();
    driver.Init(12_000_000, 1000, Registered(1));
    ReloadAtOneMillisecond();
    reload := driver.reload;
    afterInit := driver.Handler();
    driver.UpdateCallback(Registered(2));
    afterUpdate := driver.Handler();
  }
}
