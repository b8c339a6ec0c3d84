# HX711 driver, modelled in Dafny

A model of the `hx711` crate's driver for the HX711 load-cell amplifier and
24-bit ADC. The driver owns two pins:

- PD_SCK, an output that clocks the chip;
- DOUT, an input on which the chip signals readiness and shifts out data.

It talks to the chip with the chip's own bit-serial protocol.

The model has three modules:

- `Conversion` (`conversion.dfy`): the `i32` arithmetic the driver uses, the
  published constants `MAX_VALUE` and `MIN_VALUE`, and `i24_to_i32`. That
  function widens a 24-bit two's-complement reading to `i32`. `|`, `!` and
  `<<` on `i32` are written out on the two's-complement bit pattern.
  On 24-bit inputs, `I24ToI32` is proved to agree with "subtract 2^24 when
  bit 23 is set" and to be the inverse of 24-bit two's-complement encoding.
  On any `i32`, it subtracts 2^24 from the low 24 bits exactly when the
  input is at least 0x800000.
- `Protocol` (`protocol.dfy`): the three `Mode`s and their pulse counts.
  Everything the driver does is an `Event`: clock high, clock low, a DOUT
  read with its level, or a microsecond delay. For each operation there is
  a function giving the events it produces. Observers of an event sequence
  give two views:
  - the levels driven on the clock line;
  - the DOUT reads, each with the clock level at that moment.

  The lemmas state what each operation shows on the two lines: pulse
  counts, when DOUT is sampled, and that the clock ends low. They also
  state the value a poll returns.
- `Driver` (`driver.dfy`): the `Hx711` struct as a class.
  - Fields: the mode, the level PD_SCK is driven to, and the sequence of
    events so far.
  - DOUT is given as the level the line reports at each successive read.
  - Its methods are `new`, `set_mode`, `reset` and `retrieve`, written with
    the same loops as the source.
  - Each method is proved to append exactly the events of its protocol
    function and to return that function's result.

  - The two loops of `retrieve` and the body of its readout loop are
    separate methods (`ShiftIn`, `PulseClock`, `ClockInBit`). `retrieve`
    calls them in the source's order.

Three behaviours of the code are worth stating because other revisions of
the crate behave differently. The model follows this code:

- `new` drives PD_SCK low and then calls `reset` (`src/lib.rs:43-49`).
- `set_mode` only stores the mode. The dummy retrieval after it is commented
  out (`src/lib.rs:57-58`).
- The trailing mode pulses of `retrieve` have no delays between the clock
  edges (`src/lib.rs:104-107`).

## Model

| member | source | states |
|---|---|---|
| Conversion.I24ToI32 | src/lib.rs:124-131 | values below 0x800000 are unchanged; from 0x800000 up, the result is the low 24 bits minus 2^24, so on 24-bit inputs bit 23 is the sign |
| Conversion.Or | src/lib.rs:127 | the bit pattern of `x \| y` is the bitwise OR of the 32-bit patterns of `x` and `y` |
| Conversion.Not | src/lib.rs:127 | `!x` flips every bit: the bit patterns of `x` and `!x` sum to 0xFFFFFFFF |
| Conversion.OrHighMask | src/lib.rs:127 | OR with a mask whose bits k..n-1 are set keeps the low k bits and sets the others, so `x \| !0xFFFFFF` fills the top eight bits with ones |
| Conversion.ShiftLeft1 | src/lib.rs:85 | `count <<= 1` doubles the value whenever the doubled value fits in `i32` |
| Conversion.ExtendThenEncode | src/lib.rs:124-131 | every 24-bit pattern widens to a reading in [MIN_READING, MAX_VALUE], and re-encoding that reading gives the pattern back |
| Conversion.EncodeThenExtend | src/lib.rs:124-131 | every reading in [MIN_READING, MAX_VALUE] survives 24-bit encoding followed by widening |
| Conversion.ConvertVectors | src/lib.rs:137-143 | the unit test's vectors: 0x000001 → 1, 0x000002 → 2, 0xFFFFFF → -1, 0xFFFFF3 → -13 |
| Conversion.ReadingBelowMinValue | src/lib.rs:26-27 | the published `MIN_VALUE` is not a lower bound: 0x800000 widens to a reading below it |
| Conversion.ReadingExtremes | src/lib.rs:23-27 | 0x800000 and 0x7FFFFF widen to `MIN_READING` = -2^23 and `MAX_VALUE` = 2^23-1, the extremes of the range |
| Protocol.PulseCount | src/lib.rs:113-122 | a mode's discriminant, i.e. its number of trailing pulses, is between 1 and 3 |
| Protocol.PulseCountSelectsMode | src/lib.rs:115-122 | two modes have the same pulse count if and only if they are the same mode |
| Protocol.Accumulate | src/lib.rs:82-95 | shift-and-add over n bits yields a value below 2^n |
| Protocol.AccumulateIsMsbFirst | src/lib.rs:82-100 | shift-and-add equals the positional value with the first bit most significant |
| Protocol.AccumulateAppend | src/lib.rs:82-100 | bits shifted in later are less significant: the value of a+b is value(a)·2^\|b\| + value(b) |
| Protocol.BitsOf | src/lib.rs:82-100 | every value below 2^n has n bits whose shift-and-add is that value |
| Protocol.BitsOfAccumulate | src/lib.rs:82-100 | the bits are recovered from the accumulated value, so shift-and-add of n bits is injective |
| Protocol.ShiftStep | src/lib.rs:83-99 | before each of the 24 shifts the accumulator is below 2^23, so `<<= 1` never overflows; each iteration adds one bit and one bit cycle |
| Protocol.BitCycleShape | src/lib.rs:87-99 | one readout iteration is a full clock pulse (high, then low), with DOUT sampled once while the clock is high |
| Protocol.ShiftTraceShape | src/lib.rs:83-100 | n readout iterations give n full pulses and n DOUT samples taken with the clock high, in order, and leave the clock low |
| Protocol.PulseTraceShape | src/lib.rs:102-107 | the trailing loop gives n full pulses, reads nothing and leaves the clock low |
| Protocol.RetrieveClock | src/lib.rs:76-107 | a busy poll drives the clock low only; a ready poll then gives exactly 24 + pulse-count full pulses (25, 26 or 27); the clock always ends low |
| Protocol.RetrieveReads | src/lib.rs:76-100 | a poll samples DOUT once with the clock low; when that read is low, the next 24 reads follow, each with the clock high, and nothing else is read |
| Protocol.RetrieveValue | src/lib.rs:76-109 | `WouldBlock` if and only if DOUT reads high; otherwise the 24 sampled bits, most significant first, read as two's complement and lying in [MIN_READING, MAX_VALUE] |
| Protocol.ResetShape | src/lib.rs:61-68 | reset gives one full clock pulse and reads DOUT twice while the clock is high |
| Protocol.ReadoutOfMinus13 | src/lib.rs:71-110 | a ready poll in mode `ChBGain64`, with DOUT shifting out 0xFFFFF3, returns -13 after exactly 27 full clock pulses |
| Driver.ReadMinus13 | src/lib.rs:41-110 | the scenario run through the driver: `new`, then `set_mode(ChBGain64)`, then one `retrieve` while DOUT shifts out 0xFFFFF3 after the reset's two reads; it returns -13, and the poll's events drive the clock low and then give exactly 27 full pulses |
| Driver.Hx711.constructor | src/lib.rs:41-51 | `new` drives PD_SCK low, starts in `ChAGain128` and performs a reset; the recorded events are exactly clock low followed by the reset's events |
| Driver.Hx711.SetMode | src/lib.rs:53-59 | `set_mode` stores the mode and touches neither pin |
| Driver.Hx711.Reset | src/lib.rs:61-68 | `reset` appends clock high, two DOUT reads and clock low, and leaves the mode unchanged |
| Driver.Hx711.ClockInBit | src/lib.rs:87-99 | one readout iteration appends one bit cycle and returns the level DOUT reported |
| Driver.Hx711.ShiftIn | src/lib.rs:82-100 | the readout loop leaves `count` equal to the shift-and-add of the 24 levels read, and appends one bit cycle per level |
| Driver.Hx711.PulseClock | src/lib.rs:102-107 | the trailing loop appends n clock pulses and reads nothing |
| Driver.Hx711.Retrieve | src/lib.rs:70-110 | `retrieve` returns the protocol's result for the next DOUT levels, appends exactly that poll's events, leaves the clock low and the mode unchanged, and takes 1 read when busy and 25 when ready |

## Findings

| source | as written | input that shows it | evidently intended | confidence | as-written member | corrected member |
|---|---|---|---|---|---|---|
| src/lib.rs:26-27 | `MIN_VALUE`, documented as the minimum ADC value, is `1 << 23` = +8388608 | the pattern 0x800000 widens to -8388608, below `MIN_VALUE` | the minimum reading is -8388608 | high; not executed, proved about the model | Conversion.ReadingBelowMinValue | Conversion.ReadingExtremes |

The model keeps `MIN_VALUE` at its published value. Range statements use
`MIN_READING` = -2^23 instead.

## Left out

- Timing: `delay_us(1)` is recorded as a `DelayUs(1)` event. Pulse widths
  and the chip's timing windows are not modelled. The same goes for the
  power-down that a long clock-high phase causes.
- The chip itself is not modelled. DOUT is the sequence of levels it
  reports at successive reads, given as a function from read index to
  level. When conversions complete and how a mode takes effect on the next
  conversion are not modelled.
- The `embedded_hal` pin and delay traits and the `nb` crate:
  - The pins are the class's clock field, its event sequence and the DOUT
    function.
  - The delay provider is the `DelayUs` event.
  - `nb::Result<i32, Infallible>` is `Poll`, whose only non-value case is
    `WouldBlock`.
- Pin errors: the pin traits of this version cannot fail, and `retrieve`'s
  error type is `Infallible`.
- `enable`, `disable`, `destroy`, fallible pins and a blocking `retrieve`
  helper: `src/lib.rs` has none of them. The `block!` macro is imported
  but never used.
- The dummy retrieval after `set_mode`: commented out in the source.
- The gain labels in the `Mode` doc comments: they are documentation only.
  The pulse counts are what the code uses.
- Crate attributes and crate-level documentation.
- Driver.Hx711.Valid: records that the clock field and the read count agree
  with the event sequence. It does not record that every read returned the
  DOUT level for its index. Each method's `ensures` and `RetrieveReads` /
  `ResetShape` state that instead.
