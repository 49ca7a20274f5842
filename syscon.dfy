/**
 * Clock-frequency bookkeeping of the SYSCON layer: module-level frequency variables, a
 * reference to the one that feeds the main clock and the main-clock divider. Setters update
 * the variables and the reference; getters divide or select. Register writes are not modelled;
 * the external-clock-source register and the peripheral clock selector become a field and
 * a parameter.
 */
module Syscon {
  import opened Common

  const FRO_DIRECT_FREQ: int := 24_000_000

  /** The sources hal_syscon_system_clock_set_source can select for the main clock. */
  datatype MainSource = Fro | FroDiv | Ext | Watchdog | Pll

  /** The external-clock-source register: a crystal on XTALIN/XTALOUT or a clock on CLK_IN. */
  datatype ExtSource = Crystal | ClkIn

  /** The frequency variables current_main_freq can point at. */
  datatype FreqVar = FroVar | FroDivVar | CrystalVar | ExtVar | WatchdogVar | PllVar

  /** The variable set_source points the main clock at, given the external-clock-source register. */
  function Target(source: MainSource, ext: ExtSource): (v: FreqVar)
    ensures source == Fro <==> v == FroVar
    ensures source == FroDiv <==> v == FroDivVar
    ensures source == Watchdog <==> v == WatchdogVar
    ensures source == Pll <==> v == PllVar
    ensures source == Ext <==> v == (if ext == ClkIn then ExtVar else CrystalVar)
  {
    match source
      case Fro => FroVar
      case FroDiv => FroDivVar
      case Ext => if ext == ClkIn then ExtVar else CrystalVar
      case Watchdog => WatchdogVar
      case Pll => PllVar
  }

  /** base_watchdog_freq, in Hz: the table's float literals are all exact integers. */
  function WatchdogBase(sel: int): (f: int)
    requires 0 <= sel < 16
    ensures 0 <= f <= 4_600_000
    ensures sel == 0 <==> f == 0
  {
    match sel
      case 0 => 0
      case 1 => 600_000
      case 2 => 1_050_000
      case 3 => 1_400_000
      case 4 => 1_750_000
      case 5 => 2_100_000
      case 6 => 2_400_000
      case 7 => 2_700_000
      case 8 => 3_000_000
      case 9 => 3_250_000
      case 10 => 3_500_000
      case 11 => 3_750_000
      case 12 => 4_000_000
      case 13 => 4_200_000
      case 14 => 4_400_000
      case _ => 4_600_000
  }

  /** The base frequencies rise with the selector. */
  lemma {:induction false} WatchdogBaseRises(i: int, j: int)
    requires 0 <= i < j < 16
    ensures WatchdogBase(i) < WatchdogBase(j)
    decreases j - i
  {
    if i + 1 < j {
      WatchdogBaseRises(i, j - 1);
      WatchdogBaseRises(j - 1, j);
    }
  }

  /** The watchdog frequency for a base selector and a divider: base / (2 (1 + div)). */
  function WatchdogFrequency(sel: int, div: u8): (f: int)
    requires 0 <= sel < 16
    ensures 0 <= f <= WatchdogBase(sel) / 2
    ensures 2 * (1 + div) * f <= WatchdogBase(sel) < 2 * (1 + div) * (f + 1)
  {
    var base, d := WatchdogBase(sel), 2 * (1 + div);
    var f := base / d;
    DivByLarger(base, d, f);
    f
  }

  /**
   * With a base selected and a divider that fits the oscillator's 5-bit field, the
   * watchdog oscillator runs between 9375 Hz and 2.3 MHz. The range holds only for that
   * field: larger uint8_t dividers keep just the bounds of WatchdogFrequency (see
   * WatchdogLargeDivider).
   */
  lemma WatchdogRange(sel: int, div: u8)
    requires 1 <= sel < 16 && div <= 31
    ensures 9375 <= WatchdogFrequency(sel, div) <= 2_300_000
  {
    if sel > 1 {
      WatchdogBaseRises(1, sel);
    }
    QuotientRange(WatchdogBase(sel), 2 * (1 + div), WatchdogFrequency(sel, div));
  }

  /**
   * hal_syscon_watchdog_oscillator_config takes any uint8_t divider and computes the
   * frequency with it: divider 255 on the lowest base gives 1171 Hz, below the 9375 Hz the
   * header documents.
   */
  lemma WatchdogLargeDivider()
    ensures WatchdogFrequency(1, 255) == 1171 < 9375
  {
  }

  lemma QuotientRange(base: int, d: int, f: int)
    requires 600_000 <= base <= 4_600_000 && 2 <= d <= 64
    requires d * f <= base < d * (f + 1)
    ensures 9375 <= f <= 2_300_000
  {
    assert 64 * (f + 1) - d * (f + 1) == (64 - d) * (f + 1);
    assert d * f - 2 * f == (d - 2) * f;
  }

  /** Dividing by at least 2 gives at most half. */
  lemma DivByLarger(base: int, d: int, f: int)
    requires 0 <= base && 2 <= d && f == base / d
    ensures 0 <= f <= base / 2
    ensures d * f <= base < d * (f + 1)
  {
    assert d * f + base % d == base;
  }

  /** The frequency state of HAL_SYSCON.c. */
  class ClockConfig {
    var mainDiv: u8
    var fro: u32
    var froDiv: u32
    var crystal: u32
    /** current_frg_freq: only hal_syscon_frg_config, which computes in floating point, writes them. */
    var frg0: u32
    var frg1: u32
    var pll: u32
    var ext: u32
    var watchdog: u32
    /** The variable current_main_freq points at. */
    var main: FreqVar
    /** The external-clock-source register, read back by set_source. */
    var extSource: ExtSource

    /**
     * What every operation keeps: FRO_DIV is half the FRO, and the watchdog oscillator
     * runs at a frequency the table and a divider can give.
     */
    ghost predicate Valid()
      reads this
    {
      && 2 * froDiv == fro
      && (fro == 12_000_000 || fro == 24_000_000)
      && watchdog <= 2_300_000
    }

    /** The frequency a variable holds: following the reference. */
    function Freq(v: FreqVar): (f: u32)
      reads this
    {
      match v
        case FroVar => fro
        case FroDivVar => froDiv
        case CrystalVar => crystal
        case ExtVar => ext
        case WatchdogVar => watchdog
        case PllVar => pll
    }

    /** The reset state: FRO at 12 MHz as main clock, divider 1, every other frequency 0. */
    constructor (extRegister: ExtSource)
      ensures Valid()
      ensures mainDiv == 1 && fro == 12_000_000 && froDiv == 6_000_000
      ensures crystal == 0 && frg0 == 0 && frg1 == 0 && pll == 0 && ext == 0 && watchdog == 0
      ensures main == FroVar && extSource == extRegister
    {
      mainDiv := 1;
      fro := FRO_DIRECT_FREQ / 2;
      froDiv := FRO_DIRECT_FREQ / 4;
      crystal, frg0, frg1, pll, ext, watchdog := 0, 0, 0, 0, 0, 0;
      main := FroVar;
      extSource := extRegister;
    }

    /**
     * hal_syscon_system_clock_get: the selected frequency integer-divided by the divider.
     * A divider of 0 would divide by zero.
     */
    function SystemClock(): (r: u32)
      reads this
      requires mainDiv != 0
      ensures mainDiv * r <= Freq(main) < mainDiv * (r + 1)
      ensures mainDiv == 1 ==> r == Freq(main)
    {
      var f := Freq(main);
      assert mainDiv * (f / mainDiv) + f % mainDiv == f;
      DivByPositive(f, mainDiv);
      f / mainDiv
    }

    /** hal_syscon_fro_clock_get. */
    function FroClock(): (r: u32)
      reads this
      ensures r == Freq(FroVar)
    {
      fro
    }

    /** hal_syscon_pll_clock_get. */
    function PllClock(): (r: u32)
      reads this
      ensures r == Freq(PllVar)
    {
      pll
    }

    /**
     * hal_syscon_peripheral_clock_get for a PERCLKSEL value: FRG0, FRG1, FRO, FRO/2, the
     * main source without the divider, or 0 for NONE. The values 5 and 6 leave the result
     * unassigned, modelled as None.
     */
    function PeripheralClock(sel: int): (r: Option<u32>)
      reads this
      requires 0 <= sel < 8
      ensures r.None? <==> sel == 5 || sel == 6
      ensures sel == 0 ==> r == Some(fro)
      ensures sel == 1 ==> r == Some(Freq(main))
      ensures sel == 2 ==> r == Some(frg0)
      ensures sel == 3 ==> r == Some(frg1)
      ensures sel == 4 ==> r == Some(fro / 2)
      ensures sel == 7 ==> r == Some(0)
    {
      match sel
        case 0 => Option<u32>.Some(fro)
        case 1 => Some(Freq(main))
        case 2 => Option<u32>.Some(frg0)
        case 3 => Option<u32>.Some(frg1)
        case 4 => Option<u32>.Some(fro / 2)
        case 7 => Option<u32>.Some(0)
        case _ => None
    }

    /** The FRO/2 peripheral selection reads the same frequency as the FRO_DIV variable. */
    lemma PeripheralFroDiv()
      requires Valid()
      ensures PeripheralClock(4) == Some(Freq(FroDivVar))
    {
    }

    /** hal_syscon_system_clock_set_source: only the reference moves. */
    method SetSource(source: MainSource)
      requires Valid()
      modifies this
      ensures Valid()
      ensures main == Target(source, extSource)
      ensures forall v :: Freq(v) == old(Freq(v))
      ensures mainDiv == old(mainDiv) && extSource == old(extSource)
      ensures frg0 == old(frg0) && frg1 == old(frg1)
    {
      match source {
        case Fro => main := FroVar;
        case FroDiv => main := FroDivVar;
        case Ext =>
          if extSource == ClkIn {
            main := ExtVar;
          } else {
            main := CrystalVar;
          }
        case Watchdog => main := WatchdogVar;
        case Pll => main := PllVar;
      }
    }

    /** hal_syscon_system_clock_set_divider: 0 is stored as given. */
    method SetDivider(div: u8)
      requires Valid()
      modifies this
      ensures Valid()
      ensures mainDiv == div
      ensures forall v :: Freq(v) == old(Freq(v))
      ensures main == old(main) && extSource == old(extSource) && frg0 == old(frg0) && frg1 == old(frg1)
    {
      mainDiv := div;
    }

    /** hal_syscon_external_crystal_config, bookkeeping only: crystal source and frequency. */
    method ExternalCrystalConfig(crystalFreq: u32)
      requires Valid()
      modifies this
      ensures Valid()
      ensures extSource == Crystal && crystal == crystalFreq
      ensures forall v :: v != CrystalVar ==> Freq(v) == old(Freq(v))
      ensures main == old(main) && mainDiv == old(mainDiv) && frg0 == old(frg0) && frg1 == old(frg1)
    {
      extSource := Crystal;
      crystal := crystalFreq;
    }

    /** hal_syscon_external_clock_config: CLK_IN source and its frequency. */
    method ExternalClockConfig(externalClockFreq: u32)
      requires Valid()
      modifies this
      ensures Valid()
      ensures extSource == ClkIn && ext == externalClockFreq
      ensures forall v :: v != ExtVar ==> Freq(v) == old(Freq(v))
      ensures main == old(main) && mainDiv == old(mainDiv) && frg0 == old(frg0) && frg1 == old(frg1)
    {
      extSource := ClkIn;
      ext := externalClockFreq;
    }

    /** hal_syscon_fro_clock_config: direct gives 24 MHz, otherwise 12 MHz; FRO_DIV is half. */
    method FroClockConfig(direct: u8)
      requires Valid()
      modifies this
      ensures Valid()
      ensures fro == (if direct != 0 then 24_000_000 else 12_000_000)
      ensures forall v :: v != FroVar && v != FroDivVar ==> Freq(v) == old(Freq(v))
      ensures main == old(main) && mainDiv == old(mainDiv) && extSource == old(extSource)
      ensures frg0 == old(frg0) && frg1 == old(frg1)
    {
      if direct != 0 {
        fro := FRO_DIRECT_FREQ;
        froDiv := FRO_DIRECT_FREQ / 2;
      } else {
        fro := FRO_DIRECT_FREQ / 2;
        froDiv := FRO_DIRECT_FREQ / 4;
      }
    }

    /** hal_syscon_watchdog_oscillator_config: base_watchdog_freq[sel] / (2 (1 + div)). */
    method WatchdogOscillatorConfig(sel: int, div: u8)
      requires Valid() && 0 <= sel < 16
      modifies this
      ensures Valid()
      ensures watchdog == WatchdogFrequency(sel, div)
      ensures forall v :: v != WatchdogVar ==> Freq(v) == old(Freq(v))
      ensures main == old(main) && mainDiv == old(mainDiv) && extSource == old(extSource)
      ensures frg0 == old(frg0) && frg1 == old(frg1)
    {
      watchdog := WatchdogBase(sel) / (2 * (1 + div));
    }
  }

  /** A positive divisor never raises a non-negative value. */
  lemma DivByPositive(f: int, d: int)
    requires 0 <= f && 0 < d
    ensures 0 <= f / d <= f
  {
    if d > 1 {
      DivByLarger(f, d, f / d);
    }
  }

  /**
   * The main clock follows the variable it points at: with the FRO selected, reconfiguring
   * the FRO to direct mode doubles the system clock without selecting it again. From reset
   * the system clock is 12 MHz.
   */
  method FroReconfigured(extRegister: ExtSource) returns (atReset: u32, afterDirect: u32)
    ensures atReset == 12_000_000 && afterDirect == 24_000_000
  {
    var clocks := new ClockConfig(extRegister);
    atReset := clocks.SystemClock();
    clocks.SetSource(Fro);
    clocks.FroClockConfig(1);
    afterDirect := clocks.SystemClock();
  }

  /** With a crystal configured, selecting EXT for the main clock runs it from the crystal. */
  method CrystalAsMain(extRegister: ExtSource, crystalFreq: u32) returns (clock: u32)
    ensures clock == crystalFreq
  {
    var clocks := new ClockConfig(extRegister);
    clocks.ExternalCrystalConfig(crystalFreq);
    clocks.SetSource(Ext);
    clock := clocks.SystemClock();
  }
}
