# LPC845 board-support core, modelled in Dafny

This project models the application-level drivers of an LPC845 board-support library.
They keep their state in module-level variables that periodic callbacks update.

- **LCD** (`lcd.dfy`, `LCD.c`). A 50-entry ring buffer of 4-bit nibbles feeds a 2x16 character display. `LCD_push` queues each byte as two nibbles, tagged with a control flag for instructions. `LCD_check` pops one nibble per millisecond and drives D4..D7 and RS. `LCD_write` queues a row address and up to 16 characters of a NUL-terminated message. `LCD_init` queues five set-up instructions.
- **Software timers** (`timer.dfy`, `timer.c`). A table of 15 slots. `timer_check` counts them down once per millisecond and flags expiry, then reloads or stops the slot. `timer_loop` calls back every flagged slot with its slot number, in index order.
- **Seven-segment displays** (`display.dfy`, `display.c`). Two three-digit displays are driven through a BCD decoder and a digit counter. `display_write` stores the hundreds, tens and units of a number. `display_check` advances the position modulo six and drives the pins for that digit: RST at position 0, CK elsewhere, blank when the display is off.
- **Thermometer** (`thermometer.dfy`, `termometro.c`). A conversion starts every 25th millisecond. Valid ADC results fill a ten-sample ring. Every tenth result, the truncated mean of the ring is turned into milli-degrees Celsius by linear interpolation in a 45-row counts-to-temperature table.
- **SYSCON clock bookkeeping** (`syscon.dfy`, `HAL_SYSCON.c`). Frequency variables, a reference to the one that feeds the main clock, and the main divider. Getters divide (system clock) or select (peripheral clock).
- **SysTick** (`systick.dfy`, `HAL_SYSTICK.c`). Computes the 24-bit reload value for a tick period in microseconds, with a single callback slot that the interrupt invokes.

`common.dfy` holds the C integer ranges used throughout (`uint8_t`, `uint16_t`, `uint32_t` as subset types of `int`), an `Option` type, and five arithmetic facts: `LowNibbleBits`, `MulAtLeast`, `DivMonotone`, `DivModUnique` and `ModSuccessor`.

State that the C code changes in place is modelled as classes:
- `Lcd.LcdQueue` keeps the ring in an `array` and adds a ghost `contents` sequence of unread entries.
- `Timer.TimerTable` holds an `array` of slots.
- `Display.Displays` holds two-dimensional arrays.
- `Thermometer.Sensor`, `Syscon.ClockConfig` and `SysTick.SysTickDriver` hold their module variables as fields.

Each method is proved against pure functions. The properties that span several calls are lemmas about those functions:
- round trips (the nibbles and the pins carry the byte; decimal digits are unique);
- countdown and dispatch laws of the timers;
- monotonicity and exactness of the temperature interpolation;
- bounds of the clocks;
- the reload arithmetic.

Inputs the C code reads from hardware are parameters:
- the validity and value of an ADC sequence result;
- the external-clock-source register;
- the `PERCLKSEL` selector;
- the system clock seen by the SysTick driver.

Outputs to GPIO pins are returned as records of pin levels (`LcdPins`, `DisplayPins`). Callbacks are opaque identifiers.

Where code and documentation disagree, the model follows the code:
- `timer_start` documents any non-zero `repeat` as repeating. The one-bit field keeps only the low bit, so `repeat == 2` gives a one-shot timer (`Timer.RepeatTwoIsOneShot`).
- The SysTick comment at `HAL_SYSTICK.c:29` promises that the computation never overflows. It does overflow (see Findings).

## Model

| member | source | states |
|---|---|---|
| Lcd.Nibbles | Libreria_LPC845/source/infotronic/LCD.c:200-215 | a byte becomes two entries, high nibble first; each is at most 0x8F and carries the 0x80 flag exactly for instructions; the two nibbles rebuild the byte |
| Lcd.Entries | Libreria_LPC845/source/infotronic/LCD.c:193-219 | a sequence of pushed bytes occupies two entries per byte |
| Lcd.EntriesAt | Libreria_LPC845/source/infotronic/LCD.c:200-217 | entries 2k and 2k+1 of a pushed sequence are the high and low nibble of byte k |
| Lcd.Room | Libreria_LPC845/source/infotronic/LCD.c:195-198 | of n bytes pushed in turn, LCD_push accepts those that find the counter below 50: every accepted byte started below 50, the first refused one at 50 or more, so the counter can end at 51 |
| Lcd.Fitting | Libreria_LPC845/source/infotronic/LCD.c:195-198 | the bytes LCD_push accepts out of a sequence of pushes: the prefix of the items whose length is Room |
| Lcd.EntriesConcat | Libreria_LPC845/source/infotronic/LCD.c:193-219 | the entries of two byte sequences pushed in turn are the entries of their concatenation |
| Lcd.FittingConcat | Libreria_LPC845/source/infotronic/LCD.c:195-198 | pushing a then b byte by byte accepts what LCD_push takes of a, then what it takes of b from the counter left, and none of b unless all of a was taken |
| Lcd.DecodeEntry | Libreria_LPC845/source/infotronic/LCD.c:138-183 | D4..D7 carry the entry's low four bits and RS is high exactly for data entries |
| Lcd.PinsCarryByte | Libreria_LPC845/source/infotronic/LCD.c:138-215 | the two pin patterns driven for a byte rebuild its value, and RS tells instruction from data |
| Lcd.RowCommand | Libreria_LPC845/source/infotronic/LCD.c:108-123 | row 1 queues the instruction start+0x80, row 2 start+0xC0, both modulo 256; any other row queues nothing |
| Lcd.MessageLengthUpTo | Libreria_LPC845/source/infotronic/LCD.c:125-128 | the characters sent stop before the first NUL and never exceed the cap (16) or the message |
| Lcd.Characters | Libreria_LPC845/source/infotronic/LCD.c:125-128 | the loop sends character j of the message as data, for every j below the message length |
| Lcd.WriteItems | Libreria_LPC845/source/infotronic/LCD.c:104-129 | LCD_write pushes the row instruction (if any) followed by the message characters as data, at most 17 bytes |
| Lcd.InitEntries | Libreria_LPC845/source/infotronic/LCD.c:91-95 | from an empty queue LCD_init leaves exactly the ten entries 0x82 0x88 0x80 0x88 0x80 0x81 0x80 0x86 0x80 0x8C |
| Lcd.LcdQueue.constructor | Libreria_LPC845/source/infotronic/LCD.c:38-41 | the queue starts empty with both indices at 0 |
| Lcd.LcdQueue.Push | Libreria_LPC845/source/infotronic/LCD.c:193-219 | as written: a queue at 50 or more entries is left unchanged; otherwise both nibbles are stored at the in-index and the next slot, and the counter grows by 2; from 49 entries the counter reaches 51 and the low nibble overwrites the oldest entry; a queue with nothing overwritten keeps that property whenever the counter stays at most 50 |
| Lcd.LcdQueue.StorePair | Libreria_LPC845/source/infotronic/LCD.c:200-218 | the two entries are written at the in-index and the slot after it, and no other slot changes; the in-index advances by 2 modulo 50 and the counter by 2 |
| Lcd.LcdQueue.PushGuarded | Libreria_LPC845/source/infotronic/LCD.c:193-219 | corrected push: with at most 48 entries the byte's two nibbles are appended and the counter grows by 2, otherwise nothing changes; no entry is ever overwritten |
| Lcd.LcdQueue.PushStep | Libreria_LPC845/source/infotronic/LCD.c:91-95 | one LCD_push call of LCD_init or LCD_write on the push as written: after it the counter and contents are those of the first k+1 items through Room and Fitting, the buffer reference and the out-index are unchanged |
| Lcd.LcdQueue.Pop | Libreria_LPC845/source/infotronic/LCD.c:225-239 | -1 on an empty queue; otherwise the oldest entry is returned and removed, the out-index advances modulo 50 |
| Lcd.LcdQueue.Check | Libreria_LPC845/source/infotronic/LCD.c:134-188 | no pins on an empty queue; otherwise the oldest entry is removed and its decoding is driven |
| Lcd.LcdQueue.Write | Libreria_LPC845/source/infotronic/LCD.c:104-129 | as written, on the real LCD_push: the counter and contents grow by the bytes of WriteItems that LCD_push accepts (Room); nothing is overwritten if the counter ends at most 50; the out-index is unchanged |
| Lcd.LcdQueue.PushCharacters | Libreria_LPC845/source/infotronic/LCD.c:125-128 | the loop of LCD_write, on the real LCD_push: the counter and contents grow by the message characters that LCD_push accepts; nothing is overwritten if the counter ends at most 50; the out-index is unchanged |
| Lcd.LcdQueue.Init | Libreria_LPC845/source/infotronic/LCD.c:91-95 | as written, on the real LCD_push: the counter and contents grow by the set-up instructions that LCD_push accepts; nothing is overwritten if the counter ends at most 50; the out-index is unchanged |
| Lcd.OverflowAfterOnePop | Libreria_LPC845/source/infotronic/LCD.c:195-218 | from reset, 25 pushes, one pop and one more push leave the counter at 51, and the next pop returns the new byte's low nibble, not the entry it overwrote |
| Lcd.WriteAtFortyNine | Libreria_LPC845/source/infotronic/LCD.c:110-128 | LCD_write of one character on row 1 at 49 entries: the row instruction is accepted and the counter reaches 51, the character is refused |
| Timer.Started | Libreria_LPC845/source/infotronic/timer.c:33-50 | the started slot holds the period as reload and countdown; it runs when the period is positive and is timed out at once when it is 0; the repeat flag is the argument's low bit |
| Timer.RepeatTwoIsOneShot | Libreria_LPC845/source/infotronic/timer.c:16-37 | a repeat argument of 2 gives a one-shot timer and 1 a repeating one |
| Timer.Tick | Libreria_LPC845/source/infotronic/timer.c:114-133 | a stopped or exhausted slot is unchanged; otherwise the countdown drops by 1; on reaching 0 the slot is timed out and either reloads (repeat) or stops; the countdown never exceeds the reload |
| Timer.OneShotExpires | Libreria_LPC845/source/infotronic/timer.c:112-135 | a one-shot timer of n ms runs with n-k ms left after k ticks, and after n ticks it is stopped and timed out |
| Timer.RepeatingReloads | Libreria_LPC845/source/infotronic/timer.c:112-135 | a repeating timer of n ms counts down and after n ticks is back at its start state, flagged as timed out |
| Timer.Dispatched | Libreria_LPC845/source/infotronic/timer.c:95-102 | timer_loop's calls: one Call(callback, slot) for each timed-out slot, in increasing slot order; its own contract bounds them by the slot count, and DispatchedSound, DispatchedComplete and DispatchedAscending prove the rest |
| Timer.DispatchedSound | Libreria_LPC845/source/infotronic/timer.c:95-102 | every call is for a timed-out slot and passes that slot's callback and number |
| Timer.DispatchedAscending | Libreria_LPC845/source/infotronic/timer.c:95-102 | the calls come in strictly ascending slot order |
| Timer.DispatchedComplete | Libreria_LPC845/source/infotronic/timer.c:95-102 | every timed-out slot is called back |
| Timer.DispatchedSingle | Libreria_LPC845/source/infotronic/timer.c:95-102 | with one timed-out slot, exactly one call is made; with none, no call |
| Timer.TimerTable.constructor | Libreria_LPC845/source/infotronic/timer.c:24 | all 15 slots start zeroed |
| Timer.TimerTable.Start | Libreria_LPC845/source/infotronic/timer.c:33-50 | the slot becomes Started(...), the others are unchanged |
| Timer.TimerTable.Pause | Libreria_LPC845/source/infotronic/timer.c:59-62 | only the slot's running flag is cleared |
| Timer.TimerTable.Resume | Libreria_LPC845/source/infotronic/timer.c:71-74 | only the slot's running flag is set |
| Timer.TimerTable.Stop | Libreria_LPC845/source/infotronic/timer.c:80-84 | the slot stops with nothing left of its countdown; the others are unchanged |
| Timer.TimerTable.Check | Libreria_LPC845/source/infotronic/timer.c:108-136 | every slot advances by one Tick |
| Timer.TimerTable.Loop | Libreria_LPC845/source/infotronic/timer.c:91-103 | the calls are those of Dispatched for the table as it was, and every timed-out flag is cleared |
| Timer.OneShotScenario | Libreria_LPC845/source/infotronic/timer.c:33-136 | a 3 ms one-shot timer in slot 4 makes no call after two checks and exactly one, with slot number 4, after the third |
| Display.Digits | Libreria_LPC845/source/infotronic/display.c:105-119 | a number below 1000 is stored as three decimal digits whose value is the number |
| Display.DigitsUnique | Libreria_LPC845/source/infotronic/display.c:114-119 | any three decimal digits are the stored digits of their value |
| Display.Shown | Libreria_LPC845/source/infotronic/display.c:160-191 | RST at position 0 and CK elsewhere; a powered digit puts its low four bits on the BCD pins and its flag on DP; an unpowered one is blanked with DP off |
| Display.ShownDigit | Libreria_LPC845/source/infotronic/display.c:210-247 | a decimal digit on a powered display is shown exactly as written |
| Display.NextPosition | Libreria_LPC845/source/infotronic/display.c:160 | the position stays within 0..5 and wraps to 0 exactly after 5 |
| Display.PositionCycles | Libreria_LPC845/source/infotronic/display.c:157-160 | after k calls from reset the position is k mod 6 |
| Display.Displays.constructor | Libreria_LPC845/source/infotronic/display.c:39-41 | digits 0, decimal points off, both displays off |
| Display.Displays.Off | Libreria_LPC845/source/infotronic/display.c:66-74 | the display's power is cleared; an index above 1 changes nothing |
| Display.Displays.On | Libreria_LPC845/source/infotronic/display.c:80-88 | the display's power is set; an index above 1 changes nothing |
| Display.Displays.Write | Libreria_LPC845/source/infotronic/display.c:95-120 | the display's three digits become Digits(number mod 1000); the other display is unchanged; an index above 1 changes nothing |
| Display.Displays.SetDp | Libreria_LPC845/source/infotronic/display.c:127-135 | only that digit's decimal point is set; out-of-range arguments change nothing |
| Display.Displays.ClearDp | Libreria_LPC845/source/infotronic/display.c:142-150 | only that digit's decimal point is cleared; out-of-range arguments change nothing |
| Display.Displays.Check | Libreria_LPC845/source/infotronic/display.c:155-192 | the position advances modulo 6, and the pins are Shown for the digit, power and flag at the new position |
| Display.Displays.DecodeNumber | Libreria_LPC845/source/infotronic/display.c:210-247 | bits 3..0 of the digit drive D..A, so the BCD value is the digit mod 16 |
| Display.WriteThenScan | Libreria_LPC845/source/infotronic/display.c:155-192 | with 725 on display 0, the first check shows the tens digit 2 on a CK pulse, and the sixth shows the hundreds digit 7 on a RST pulse |
| Thermometer.RowStep | Libreria_LPC845/source/infotronic/termometro.c:32-76 | neighbouring rows are 5000 milli-degrees apart and their counts fall by 1 to 230 |
| Thermometer.Row | Libreria_LPC845/source/infotronic/termometro.c:32-76 | the 45 (temperature, counts) pairs as conversion_table lists them; every temperature lies in -70000..150000 and every count in 84..4085 |
| Thermometer.RowTemperature | Libreria_LPC845/source/infotronic/termometro.c:32-76 | the 45 literal temperatures follow the formula -70000 + 5000 i |
| Thermometer.TableShape | Libreria_LPC845/source/infotronic/termometro.c:30-77 | 45 rows from (-70000, 4085) to (150000, 84), evenly spaced in temperature, with strictly falling counts |
| Thermometer.CountsFall | Libreria_LPC845/source/infotronic/termometro.c:30-77 | counts fall strictly along the whole table |
| Thermometer.Bracket | Libreria_LPC845/source/infotronic/termometro.c:157-163 | the search stops at the first row whose counts do not exceed the mean; row 0 only for the mean 4085 |
| Thermometer.BracketFrom | Libreria_LPC845/source/infotronic/termometro.c:157-163 | the search loop from row i: it stops at the first row at or after i whose counts do not exceed the mean, or at the last row |
| Thermometer.Lerp | Libreria_LPC845/source/infotronic/termometro.c:187-190 | the interpolated temperature lies above the colder row and at most at the warmer one |
| Thermometer.Between | Libreria_LPC845/source/infotronic/termometro.c:179-190 | a mean off the table points has a bracket above row 0, its counts lie strictly between the two rows' counts, and it reads the Lerp of those rows |
| Thermometer.LerpMonotone | Libreria_LPC845/source/infotronic/termometro.c:187-190 | within a bracket, more counts never give a higher temperature |
| Thermometer.Interpolated | Libreria_LPC845/source/infotronic/termometro.c:157-192 | a mean equal to a row's counts reads that row's temperature; otherwise the reading lies strictly above the colder bracketing row and at most at the warmer one; always within -70000..150000 |
| Thermometer.ExactAtTablePoints | Libreria_LPC845/source/infotronic/termometro.c:157-192 | every table point reads back its own temperature exactly |
| Thermometer.Monotone | Libreria_LPC845/source/infotronic/termometro.c:157-192 | the reading never rises as the mean count rises |
| Thermometer.MonotoneWithin | Libreria_LPC845/source/infotronic/termometro.c:165-192 | two means in the same bracket read in falling order |
| Thermometer.MonotoneAcross | Libreria_LPC845/source/infotronic/termometro.c:157-192 | two means in different brackets read in falling order |
| Thermometer.ReadingBounds | Libreria_LPC845/source/infotronic/termometro.c:157-192 | the reading lies at most at its bracket row's temperature and strictly above the previous row's |
| Thermometer.Sum | Libreria_LPC845/source/infotronic/termometro.c:149-152 | the accumulation of the samples, first to last; of 16-bit samples it is at most 0xFFFF per sample, so ten of them cannot wrap the 32-bit sum |
| Thermometer.Mean | Libreria_LPC845/source/infotronic/termometro.c:149-154 | the average is the truncated mean: 10 m <= sum < 10 (m+1), and fits in 16 bits |
| Thermometer.StartsEvery25th | Libreria_LPC845/source/infotronic/termometro.c:108-115 | after k calls the counter is k mod 25, so a conversion starts exactly on the calls numbered by multiples of 25 |
| Thermometer.AsUnsigned | Libreria_LPC845/source/infotronic/termometro.c:122-125 | the reading returned as uint32 is the int32 value, plus 2^32 when negative |
| Thermometer.Sensor.constructor | Libreria_LPC845/source/infotronic/termometro.c:79-81 | index, reading and counter start at 0, and the ten samples are zero like the static conversion_buffer |
| Thermometer.Sensor.Check | Libreria_LPC845/source/infotronic/termometro.c:106-116 | the counter advances modulo 25 and a conversion starts exactly when it wraps to 0 |
| Thermometer.Sensor.Read | Libreria_LPC845/source/infotronic/termometro.c:122-125 | returns the reading as uint32 |
| Thermometer.Sensor.ConversionFinished | Libreria_LPC845/source/infotronic/termometro.c:130-195 | an invalid result changes nothing; a valid one is stored at the index, which advances modulo 10; when the index wraps, the reading becomes Interpolated of the ring's mean |
| Thermometer.Sensor.Average | Libreria_LPC845/source/infotronic/termometro.c:146-154 | the loop computes the truncated mean of the ten samples |
| Thermometer.FindBracket | Libreria_LPC845/source/infotronic/termometro.c:157-163 | the search loop stops at Bracket(mean) |
| Thermometer.Interpolate | Libreria_LPC845/source/infotronic/termometro.c:165-192 | the three branches compute Interpolated(mean) |
| Thermometer.LerpStep | Libreria_LPC845/source/infotronic/termometro.c:187-190 | the int32 steps between two rows 5000 apart compute Lerp: the product 5000 (mean - counts) cannot overflow |
| Syscon.Target | Libreria_LPC845/source/hal/HAL_SYSCON.c:63-82 | FRO, FRO_DIV, WATCHDOG and PLL select their own variable; EXT selects the external clock for CLK_IN and the crystal otherwise |
| Syscon.WatchdogBase | Libreria_LPC845/source/hal/HAL_SYSCON.c:40-44 | the base frequencies lie in 0..4.6 MHz and only selector 0 gives 0 |
| Syscon.WatchdogBaseRises | Libreria_LPC845/source/hal/HAL_SYSCON.c:40-44 | the base frequencies rise strictly with the selector |
| Syscon.WatchdogFrequency | Libreria_LPC845/source/hal/HAL_SYSCON.c:239 | the stored frequency is the truncated quotient of the base by 2 (1 + div) and at most half the base |
| Syscon.WatchdogRange | Libreria_LPC845/includes/hal/HAL_SYSCON.h:80-82 | with a base selected and a 5-bit divider, the watchdog oscillator runs between 9375 Hz and 2.3 MHz |
| Syscon.WatchdogLargeDivider | Libreria_LPC845/source/hal/HAL_SYSCON.c:235-240 | the C function accepts any uint8_t divider: 255 on the lowest base gives 1171 Hz, outside the documented range |
| Syscon.ClockConfig.constructor | Libreria_LPC845/source/hal/HAL_SYSCON.c:29-38 | reset state: FRO 12 MHz as main clock, FRO_DIV 6 MHz, divider 1, every other frequency 0 |
| Syscon.ClockConfig.SystemClock | Libreria_LPC845/source/hal/HAL_SYSCON.c:50-53 | the truncated quotient of the selected frequency by a non-zero divider; with divider 1 the frequency itself |
| Syscon.ClockConfig.FroClock | Libreria_LPC845/source/hal/HAL_SYSCON.c:99-102 | returns the FRO frequency |
| Syscon.ClockConfig.PllClock | Libreria_LPC845/source/hal/HAL_SYSCON.c:289-292 | returns the PLL frequency |
| Syscon.ClockConfig.PeripheralClock | Libreria_LPC845/source/hal/HAL_SYSCON.c:251-261 | FRO, the main source without the divider, FRG0, FRG1, FRO/2 or 0 for NONE; no value for the selectors 5 and 6 |
| Syscon.ClockConfig.PeripheralFroDiv | Libreria_LPC845/source/hal/HAL_SYSCON.c:256 | the FRO/2 peripheral selection equals the FRO_DIV variable |
| Syscon.ClockConfig.SetSource | Libreria_LPC845/source/hal/HAL_SYSCON.c:59-83 | only the main-clock reference moves, to Target(source, external-clock-source register) |
| Syscon.ClockConfig.SetDivider | Libreria_LPC845/source/hal/HAL_SYSCON.c:89-93 | only the divider changes, to the value given (0 included) |
| Syscon.ClockConfig.ExternalCrystalConfig | Libreria_LPC845/source/hal/HAL_SYSCON.c:108-139 | the external source becomes the crystal and its frequency is recorded; nothing else changes |
| Syscon.ClockConfig.ExternalClockConfig | Libreria_LPC845/source/hal/HAL_SYSCON.c:145-149 | the external source becomes CLK_IN and its frequency is recorded; nothing else changes |
| Syscon.ClockConfig.FroClockConfig | Libreria_LPC845/source/hal/HAL_SYSCON.c:158-176 | direct gives FRO 24 MHz, otherwise 12 MHz; FRO_DIV stays half the FRO; nothing else changes |
| Syscon.ClockConfig.WatchdogOscillatorConfig | Libreria_LPC845/source/hal/HAL_SYSCON.c:235-240 | the watchdog frequency becomes WatchdogFrequency(sel, div); nothing else changes |
| Syscon.FroReconfigured | Libreria_LPC845/source/hal/HAL_SYSCON.c:38-176 | the system clock reads 12 MHz from reset, and 24 MHz after the FRO (still the main source) is switched to direct mode |
| Syscon.CrystalAsMain | Libreria_LPC845/source/hal/HAL_SYSCON.c:59-139 | after configuring a crystal and selecting EXT, the system clock is the crystal frequency |
| SysTick.Cycles | Libreria_LPC845/source/hal/HAL_SYSTICK.c:27-29 | the truncated number of main-clock cycles per tick at the clock/10 precision |
| SysTick.ReloadAsWritten | Libreria_LPC845/source/hal/HAL_SYSTICK.c:27-37 | as written, with 32-bit wrap of the product and of the decrement: the reload is always below 2^24 |
| SysTick.Reload | Libreria_LPC845/source/hal/HAL_SYSTICK.c:27-37 | corrected, with the product kept whole: the reload is below 2^24; the counter counts exactly the cycles of a tick when they fit in 24 bits; zero or too many cycles give 2^24-1 |
| SysTick.PeriodMatchesTick | Libreria_LPC845/source/hal/HAL_SYSTICK.c:27-31 | when nothing is clamped, the reload period is at most the requested tick and within one cycle of it |
| SysTick.AgreeWithoutWrap | Libreria_LPC845/source/hal/HAL_SYSTICK.c:27-37 | without a 32-bit overflow of the product the code as written computes the intended reload |
| SysTick.ReloadAtOneMillisecond | Libreria_LPC845/source/hal/HAL_SYSTICK.c:27-31 | 12 MHz and 1000 us give the reload 11999 |
| SysTick.ZeroTick | Libreria_LPC845/source/hal/HAL_SYSTICK.c:30-37 | a zero quotient wraps the decrement, and the clamp gives 2^24-1 |
| SysTick.WrapAtFourMilliseconds | Libreria_LPC845/source/hal/HAL_SYSTICK.c:28-29 | at 12 MHz and 4000 us the product exceeds 2^32; as written the reload is 5049 instead of 47999 |
| SysTick.AsWrittenNotMonotone | Libreria_LPC845/source/hal/HAL_SYSTICK.c:28-29 | as written, a 3 ms tick gets a longer reload than a 4 ms one |
| SysTick.ReloadMonotone | Libreria_LPC845/source/hal/HAL_SYSTICK.c:27-37 | the corrected reload never decreases as the tick grows, once the quotient is not zero |
| SysTick.ProductFits | Libreria_LPC845/source/hal/HAL_SYSTICK.c:27-28 | clock/10 times a 32-bit tick fits in 64 bits |
| SysTick.SysTickDriver.constructor | Libreria_LPC845/source/hal/HAL_SYSTICK.c:15 | the slot holds the dummy handler and the counter is stopped |
| SysTick.SysTickDriver.Init | Libreria_LPC845/source/hal/HAL_SYSTICK.c:22-50 | as written, every step in 32 bits: the reload becomes ReloadAsWritten(clock, tick), the counter runs and the callback is stored |
| SysTick.SysTickDriver.InitIntended | Libreria_LPC845/source/hal/HAL_SYSTICK.c:22-50 | corrected, with the product in 64 bits as the comment at line 29 intends: the reload becomes Reload(clock, tick) |
| SysTick.SysTickDriver.UpdateCallback | Libreria_LPC845/source/hal/HAL_SYSTICK.c:56-59 | only the callback slot changes |
| SysTick.SysTickDriver.Handler | Libreria_LPC845/source/hal/HAL_SYSTICK.c:64-67 | invokes whatever the slot holds |
| SysTick.InitThenUpdate | Libreria_LPC845/source/hal/HAL_SYSTICK.c:15-67 | the dummy handler runs before init, the registered callback (with reload 11999 at 12 MHz and 1 ms) after it, and the new one after an update |

## Left out

- The ADC sequence and threshold engine is not part of this model. Only its header exists, so burst, single-step and threshold behaviour would be invented. The thermometer takes the sequence result (valid or not, and its value) as a parameter.
- GPIO, IOCON, SWM, SYSCON, NVIC and SYSTICK register writes are left out because they are hardware. Pin levels are returned as records instead, and the registers the code reads back become fields or parameters.
- `LCD_init` bit-bangs the pins and busy-waits before queueing its instructions (`LCD.c:53-89`). That part is left out as I/O and timing; `Lcd.LcdQueue.Init` models only the five queued instructions.
- `display_init` and `termometro_init` only configure pins and the ADC, so they are left out.
- The crystal-stabilisation busy loop in `hal_syscon_external_crystal_config` (`HAL_SYSCON.c:134-135`) is a delay, so it is left out. So are the oscillator range register writes before it.
- `hal_syscon_frg_config` computes in floating point, so it is left out. The FRG frequencies therefore keep their reset value 0 in the model.
- `hal_syscon_pll_clock_config` is an unimplemented stub that stores 0, so it is left out.
- `hal_syscon_clkout_config`, `hal_syscon_iocon_glitch_divider_set` and `hal_syscon_fro_clock_disable` only write registers, so they are left out.
- Interrupts interleaving with the foreground are not modelled. Nothing in the C code protects the shared counters (LCD queue, timer flags) against a callback running in the middle of an update; each operation is modelled as atomic.
- Callbacks run by `timer_loop` and `SysTick_Handler` are not executed. They are returned as identifiers, so a callback that restarts its own timer during the loop is not modelled.
- Timer.TimerTable.Start: requires the slot number below 15, because the C code indexes the array without a check. Pause, Resume and Stop carry the same requirement.
- Thermometer.Sensor.ConversionFinished: requires that a completed round averages within the table's counts, 84..4085. Above 4085 the code reads `conversion_table[-1]` (`termometro.c:173-175`). Below 84 its search loop (`<=` at line 157) reads `conversion_table[45]`. Both are out of bounds.
- Syscon.ClockConfig.SystemClock: requires a non-zero divider. The header documents divider 0 as disabling the clock, but the getter would divide by zero.
- Syscon.ClockConfig.WatchdogOscillatorConfig: requires a base selector below 16, the size of the table.
- Syscon.ClockConfig.PeripheralClock: returns no value for the `PERCLKSEL` values 5 and 6, where the C function returns an unassigned variable.
- Lcd.LcdQueue: once a push from 49 entries takes the counter to 51, the ghost `contents` still lists every entry pushed and not popped, but the ring no longer holds them. `Valid` (nothing overwritten) is therefore promised by Push, Write, PushCharacters and Init only when the counter ends at most 50.
- Lcd.LcdQueue.Write, PushCharacters and Init are modelled only on the push as written. The corrected push `PushGuarded` is stated for one byte; a write built on it is not modelled.
- Display.Displays.Check: returns only the final pin levels. The order of the individual pin writes and the RST/CK pulse edges are not modelled.

## Findings

| source | as written | input that shows it | evidently intended | confidence | as-written member | corrected member |
|---|---|---|---|---|---|---|
| Libreria_LPC845/source/infotronic/LCD.c:195 | `LCD_push` refuses only when the counter is already 50, then stores two entries | from reset, 25 pushes and one pop leave 49 entries; one more push brings the counter to 51 and overwrites the oldest unread entry | refuse unless two slots are free (counter at most 48) | not executed | Lcd.OverflowAfterOnePop | Lcd.LcdQueue.PushGuarded |
| Libreria_LPC845/source/hal/HAL_SYSTICK.c:28 | `aux *= tick_us` in 32 bits, whatever the comment at line 29 says about overflow | clock 12 MHz and tick 4000 us: 1200000 x 4000 wraps to 505032704, giving reload 5049 | the product kept whole (64 bits suffice), giving reload 47999 | not executed | SysTick.WrapAtFourMilliseconds | SysTick.Reload |
