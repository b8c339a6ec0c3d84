/** The HX711 bit-serial protocol as the driver performs it on its two pins:
    the events it produces, the sequences of events each operation produces,
    and what those sequences show on the clock and data lines. */
module Protocol {
  import opened Conversion

  /** Channel and gain of the next conversion. The chip tells them apart by
      the number of clock pulses after the 24 data bits. */
  datatype Mode = ChAGain128 | ChBGain32 | ChBGain64

  /** The discriminant of a mode: its number of trailing clock pulses. */
  function PulseCount(m: Mode): (n: nat)
    ensures 1 <= n <= 3
  {
    match m
    case ChAGain128 => 1
    case ChBGain32 => 2
    case ChBGain64 => 3
  }

  /** Each pulse count selects one mode. */
  lemma PulseCountSelectsMode(m1: Mode, m2: Mode)
    ensures PulseCount(m1) == PulseCount(m2) <==> m1 == m2
  {
  }

  /** One action of the driver on its pins or its delay provider. */
  datatype Event =
    | ClockHigh                // PD_SCK driven high
    | ClockLow                 // PD_SCK driven low
    | DataRead(high: bool)     // DOUT sampled, with the level it reported
    | DelayUs(us: nat)         // a busy wait of `us` microseconds

  /** Outcome of a poll: the Rust `nb::Result<i32, Infallible>`, whose error
      side can only be `WouldBlock`. */
  datatype Poll = WouldBlock | Ready(value: i32)

  /** A data read together with the clock level at the moment of the read. */
  datatype Sample = Sample(clockHigh: bool, dataHigh: bool)

  /* ---------- Observing a trace ---------- */

  /** The levels driven on the clock line, in order. */
  function ClockLevels(t: seq<Event>): seq<bool>
  {
    if t == [] then []
    else
      var last := t[|t| - 1];
      ClockLevels(t[..|t| - 1])
        + (if last == ClockHigh then [true] else if last == ClockLow then [false] else [])
  }

  /** The clock level after `t`, when it was `start` before. */
  function ClockAfter(t: seq<Event>, start: bool): bool
  {
    var levels := ClockLevels(t);
    if levels == [] then start else levels[|levels| - 1]
  }

  /** The data reads of `t`, each with the clock level at that moment. */
  function Reads(t: seq<Event>, start: bool): seq<Sample>
  {
    if t == [] then []
    else
      var prefix, last := t[..|t| - 1], t[|t| - 1];
      Reads(prefix, start)
        + (if last.DataRead? then [Sample(ClockAfter(prefix, start), last.high)] else [])
  }

  /** `n` complete clock pulses: high then low, `n` times. */
  function Pulses(n: nat): (levels: seq<bool>)
    ensures |levels| == 2 * n
  {
    if n == 0 then [] else Pulses(n - 1) + [true, false]
  }

  lemma {:induction false} ClockLevelsAppend(a: seq<Event>, b: seq<Event>)
    ensures ClockLevels(a + b) == ClockLevels(a) + ClockLevels(b)
  {
    if b != [] {
      var b' := b[..|b| - 1];
      assert (a + b)[..|a + b| - 1] == a + b';
      ClockLevelsAppend(a, b');
    } else {
      assert a + b == a;
    }
  }

  lemma ClockAfterAppend(a: seq<Event>, b: seq<Event>, start: bool)
    ensures ClockAfter(a + b, start) == ClockAfter(b, ClockAfter(a, start))
  {
    ClockLevelsAppend(a, b);
  }

  lemma {:induction false} ReadsAppend(a: seq<Event>, b: seq<Event>, start: bool)
    ensures Reads(a + b, start) == Reads(a, start) + Reads(b, ClockAfter(a, start))
  {
    if b != [] {
      var b' := b[..|b| - 1];
      assert (a + b)[..|a + b| - 1] == a + b';
      ReadsAppend(a, b', start);
      ClockAfterAppend(a, b', start);
    } else {
      assert a + b == a;
    }
  }

  /** The clock goes high exactly `n` times in `n` pulses. */
  lemma {:induction false} PulsesRises(n: nat)
    ensures multiset(Pulses(n))[true] == n
    ensures multiset(Pulses(n))[false] == n
  {
    if n > 0 {
      PulsesRises(n - 1);
    }
  }

  lemma {:induction false} PulsesAppend(m: nat, n: nat)
    ensures Pulses(m) + Pulses(n) == Pulses(m + n)
  {
    if n > 0 {
      PulsesAppend(m, n - 1);
    } else {
      assert Pulses(m) + [] == Pulses(m);
    }
  }

  /* ---------- Bits shifted in during a conversion readout ---------- */

  function Bit(b: bool): nat
  {
    if b then 1 else 0
  }

  /** The value `retrieve`'s `count` holds after shifting in `bits`, first
      bit first: shift left, then add the new bit. */
  function Accumulate(bits: seq<bool>): (v: nat)
    ensures v < Pow2(|bits|)
  {
    if bits == [] then 0
    else 2 * Accumulate(bits[..|bits| - 1]) + Bit(bits[|bits| - 1])
  }

  /** Positional reading of `bits` with the most significant bit first:
      the sum of `bit_i * 2^(|bits| - 1 - i)`. */
  function MsbFirstValue(bits: seq<bool>): nat
  {
    if bits == [] then 0
    else Bit(bits[0]) * Pow2(|bits| - 1) + MsbFirstValue(bits[1..])
  }

  lemma {:induction false} MsbFirstValueSnoc(bits: seq<bool>, b: bool)
    ensures MsbFirstValue(bits + [b]) == 2 * MsbFirstValue(bits) + Bit(b)
  {
    if bits == [] {
      assert [] + [b] == [b];
    } else {
      assert (bits + [b])[1..] == bits[1..] + [b];
      MsbFirstValueSnoc(bits[1..], b);
      assert Pow2(|bits + [b]| - 1) == 2 * Pow2(|bits| - 1);
    }
  }

  /** Shift-and-add accumulates the bits most significant first. */
  lemma {:induction false} AccumulateIsMsbFirst(bits: seq<bool>)
    ensures Accumulate(bits) == MsbFirstValue(bits)
  {
    if bits != [] {
      var init, last := bits[..|bits| - 1], bits[|bits| - 1];
      AccumulateIsMsbFirst(init);
      assert init + [last] == bits;
      MsbFirstValueSnoc(init, last);
    }
  }

  /** Bits shifted in later are the less significant ones. */
  lemma {:induction false} AccumulateAppend(a: seq<bool>, b: seq<bool>)
    ensures Accumulate(a + b) == Accumulate(a) * Pow2(|b|) + Accumulate(b)
  {
    if b == [] {
      assert a + b == a;
    } else {
      var b' := b[..|b| - 1];
      assert (a + b)[..|a + b| - 1] == a + b';
      AccumulateAppend(a, b');
      var x, p := Accumulate(a), Pow2(|b'|);
      calc {
        Accumulate(a + b);
        2 * Accumulate(a + b') + Bit(b[|b| - 1]);
        2 * (x * p + Accumulate(b')) + Bit(b[|b| - 1]);
        { DoubleFactor(x, p); }
        x * (2 * p) + Accumulate(b);
      }
    }
  }

  lemma DoubleFactor(x: int, p: int)
    ensures 2 * (x * p) == x * (2 * p)
  {
  }

  lemma {:induction false} AccumulateOnes(n: nat)
    ensures Accumulate(seq(n, _ => true)) == Pow2(n) - 1
  {
    if n > 0 {
      AccumulateOnes(n - 1);
      assert seq(n, _ => true)[..n - 1] == seq(n - 1, _ => true);
    }
  }

  /** The `n` bits, most significant first, that the chip shifts out for `v`. */
  function BitsOf(v: nat, n: nat): (bits: seq<bool>)
    requires v < Pow2(n)
    ensures |bits| == n && Accumulate(bits) == v
  {
    if n == 0 then []
    else
      var init := BitsOf(v / 2, n - 1);
      assert (init + [v % 2 == 1])[..n - 1] == init;
      init + [v % 2 == 1]
  }

  /** Reading `n` bits is injective: the bits are recovered from the value. */
  lemma {:induction false} BitsOfAccumulate(bits: seq<bool>)
    ensures BitsOf(Accumulate(bits), |bits|) == bits
  {
    if bits != [] {
      var init, last := bits[..|bits| - 1], bits[|bits| - 1];
      assert bits == init + [last];
      BitsOfAccumulate(init);
      AccumulateSnoc(init, last);
      BitsOfStep(Accumulate(init), |init|, last);
    }
  }

  lemma AccumulateSnoc(init: seq<bool>, last: bool)
    ensures Accumulate(init + [last]) == 2 * Accumulate(init) + Bit(last)
  {
    assert (init + [last])[..|init|] == init;
  }

  /** Halving the accumulator undoes its last shift-and-add. */
  lemma BitsOfStep(a: nat, n: nat, last: bool)
    requires a < Pow2(n)
    ensures 2 * a + Bit(last) < Pow2(n + 1)
    ensures BitsOf(2 * a + Bit(last), n + 1) == BitsOf(a, n) + [last]
  {
    HalveDouble(a, Bit(last));
  }

  lemma HalveDouble(a: nat, b: nat)
    requires b < 2
    ensures (2 * a + b) / 2 == a && (2 * a + b) % 2 == b
  {
  }

  /* ---------- The pin activity of each operation ---------- */

  /** The levels DOUT reports on reads `start .. start + n - 1`. */
  function Levels(dout: nat -> bool, start: nat, n: nat): seq<bool>
  {
    seq(n, i requires 0 <= i => dout(start + i))
  }

  /** One data bit: clock high, 1 µs, sample DOUT, clock low, 1 µs. */
  function BitCycle(level: bool): seq<Event>
  {
    [ClockHigh, DelayUs(1), DataRead(level), ClockLow, DelayUs(1)]
  }

  /** Reads of `levels`, each taken while the clock is high. */
  function ClockedHigh(levels: seq<bool>): seq<Sample>
  {
    seq(|levels|, i requires 0 <= i < |levels| => Sample(true, levels[i]))
  }

  /** Shifting in `levels`, one bit cycle per level. */
  function ShiftTrace(levels: seq<bool>): seq<Event>
  {
    if levels == [] then []
    else ShiftTrace(levels[..|levels| - 1]) + BitCycle(levels[|levels| - 1])
  }

  /** `n` trailing pulses, with no delay and no read. */
  function PulseTrace(n: nat): seq<Event>
  {
    if n == 0 then [] else PulseTrace(n - 1) + [ClockHigh, ClockLow]
  }

  /** `reset`: clock high, two reads of DOUT, clock low. */
  function ResetTrace(dout: nat -> bool, cursor: nat): seq<Event>
  {
    [ClockHigh, DataRead(dout(cursor)), DataRead(dout(cursor + 1)), ClockLow]
  }

  /** `retrieve` with DOUT's next read at index `cursor`: clock low, check
      readiness, and when ready 24 bit cycles and the mode's trailing pulses. */
  function RetrieveTrace(dout: nat -> bool, cursor: nat, mode: Mode): seq<Event>
  {
    [ClockLow, DataRead(dout(cursor))]
      + if dout(cursor) then []
        else ShiftTrace(Levels(dout, cursor + 1, 24)) + PulseTrace(PulseCount(mode))
  }

  /** Reading one more bit: the accumulator shifts left and adds it, and the
      trace gains one bit cycle. Before a readout's last bit the accumulator
      is below 2^23, so the shift stays inside `i32`. */
  lemma ShiftStep(dout: nat -> bool, start: nat, i: nat)
    requires i < 24
    ensures Accumulate(Levels(dout, start, i)) < 0x80_0000
    ensures Accumulate(Levels(dout, start, i + 1))
      == 2 * Accumulate(Levels(dout, start, i)) + Bit(dout(start + i))
    ensures ShiftTrace(Levels(dout, start, i + 1))
      == ShiftTrace(Levels(dout, start, i)) + BitCycle(dout(start + i))
  {
    assert Levels(dout, start, i + 1)[..i] == Levels(dout, start, i);
    Pow2Le(i, 23);
    Pow2Values();
  }

  /** What `retrieve` returns with DOUT's next read at index `cursor`. */
  function RetrieveResult(dout: nat -> bool, cursor: nat): Poll
  {
    if dout(cursor) then WouldBlock
    else
      Pow2Values();
      Ready(I24ToI32(Accumulate(Levels(dout, cursor + 1, 24)) as i32))
  }

  /* ---------- What the clock and data lines see ---------- */

  /** Shifting in `levels` gives one full clock pulse per level and samples
      DOUT once per pulse, while the clock is high. */
  lemma {:induction false} ShiftTraceShape(levels: seq<bool>, start: bool)
    ensures ClockLevels(ShiftTrace(levels)) == Pulses(|levels|)
    ensures Reads(ShiftTrace(levels), start) == ClockedHigh(levels)
    ensures ClockAfter(ShiftTrace(levels), start) == (if levels == [] then start else false)
  {
    if levels != [] {
      var init, last := levels[..|levels| - 1], levels[|levels| - 1];
      ShiftTraceShape(init, start);
      ClockLevelsAppend(ShiftTrace(init), BitCycle(last));
      ReadsAppend(ShiftTrace(init), BitCycle(last), start);
      ClockAfterAppend(ShiftTrace(init), BitCycle(last), start);
      BitCycleShape(last, ClockAfter(ShiftTrace(init), start));
      assert ClockedHigh(init) + [Sample(true, last)] == ClockedHigh(levels);
    }
  }

  lemma SingleEvent(e: Event, start: bool)
    ensures ClockLevels([e]) == (if e == ClockHigh then [true] else if e == ClockLow then [false] else [])
    ensures Reads([e], start) == (if e.DataRead? then [Sample(start, e.high)] else [])
  {
    assert [e][..0] == [];
  }

  /** Appending one event to a trace extends its clock levels by that event's. */
  lemma SnocClock(t: seq<Event>, e: Event)
    ensures ClockLevels(t + [e]) == ClockLevels(t) + ClockLevels([e])
  {
    assert (t + [e])[..|t|] == t;
    assert [e][..0] == [];
  }

  /** Appending one event to a trace extends its reads by that event's. */
  lemma SnocReads(t: seq<Event>, e: Event, start: bool)
    ensures Reads(t + [e], start) == Reads(t, start) + Reads([e], ClockAfter(t, start))
  {
    assert (t + [e])[..|t|] == t;
    SingleEvent(e, ClockAfter(t, start));
  }

  /** One bit cycle: a full pulse, with DOUT sampled while the clock is high. */
  lemma BitCycleShape(level: bool, start: bool)
    ensures ClockLevels(BitCycle(level)) == [true, false]
    ensures Reads(BitCycle(level), start) == [Sample(true, level)]
  {
    BitCycleClock(level);
    BitCycleReads(level, start);
  }

  lemma BitCycleClock(level: bool)
    ensures ClockLevels(BitCycle(level)) == [true, false]
  {
    var t1 := [ClockHigh];
    var t2 := t1 + [DelayUs(1)];
    var t3 := t2 + [DataRead(level)];
    var t4 := t3 + [ClockLow];
    assert BitCycle(level) == t4 + [DelayUs(1)];
    SingleEvent(ClockHigh, false);
    SnocClock(t1, DelayUs(1));
    SnocClock(t2, DataRead(level));
    SnocClock(t3, ClockLow);
    SnocClock(t4, DelayUs(1));
  }

  lemma BitCycleReads(level: bool, start: bool)
    ensures Reads(BitCycle(level), start) == [Sample(true, level)]
  {
    var head, fall := [ClockHigh, DelayUs(1), DataRead(level)], [ClockLow, DelayUs(1)];
    assert BitCycle(level) == head + fall;
    RiseThenRead(level, start);
    PairShape(ClockLow, DelayUs(1), true);
    ReadsAppend(head, fall, start);
  }

  /** Clock high, a delay, one read: the read sees the clock high. */
  lemma RiseThenRead(level: bool, start: bool)
    ensures Reads([ClockHigh, DelayUs(1), DataRead(level)], start) == [Sample(true, level)]
    ensures ClockAfter([ClockHigh, DelayUs(1), DataRead(level)], start)
  {
    var rise, read := [ClockHigh, DelayUs(1)], [DataRead(level)];
    assert rise + read == [ClockHigh, DelayUs(1), DataRead(level)];
    PairShape(ClockHigh, DelayUs(1), start);
    SingleEvent(DataRead(level), true);
    ReadsAppend(rise, read, start);
    ClockLevelsAppend(rise, read);
  }

  /** A clock write followed by a delay: no read, and the clock ends at the written level. */
  lemma PairShape(e: Event, d: Event, start: bool)
    requires (e == ClockHigh || e == ClockLow) && d.DelayUs?
    ensures ClockLevels([e, d]) == [e == ClockHigh]
    ensures Reads([e, d], start) == []
  {
    assert [e, d][..1] == [e];
    SingleEvent(e, start);
  }

  /** Trailing pulses toggle the clock `n` times and read nothing. */
  lemma PulseTraceShape(n: nat, start: bool)
    ensures ClockLevels(PulseTrace(n)) == Pulses(n)
    ensures Reads(PulseTrace(n), start) == []
    ensures ClockAfter(PulseTrace(n), start) == (if n == 0 then start else false)
  {
    PulseTraceClock(n);
    PulseTraceReads(n, start);
  }

  lemma {:induction false} PulseTraceClock(n: nat)
    ensures ClockLevels(PulseTrace(n)) == Pulses(n)
  {
    if n > 0 {
      PulseTraceClock(n - 1);
      PairClock(PulseTrace(n - 1));
    }
  }

  lemma {:induction false} PulseTraceReads(n: nat, start: bool)
    ensures Reads(PulseTrace(n), start) == []
  {
    PulseTraceWritesOnly(n);
    NoDataReads(PulseTrace(n), start);
  }

  /** A trace with no data-read event reads nothing. */
  lemma {:induction false} NoDataReads(t: seq<Event>, start: bool)
    requires forall i :: 0 <= i < |t| ==> !t[i].DataRead?
    ensures Reads(t, start) == []
  {
    if t != [] {
      var prefix := t[..|t| - 1];
      assert forall i :: 0 <= i < |prefix| ==> prefix[i] == t[i];
      NoDataReads(prefix, start);
    }
  }

  lemma {:induction false} PulseTraceWritesOnly(n: nat)
    ensures forall i :: 0 <= i < |PulseTrace(n)| ==> !PulseTrace(n)[i].DataRead?
  {
    if n > 0 {
      PulseTraceWritesOnly(n - 1);
      var t := PulseTrace(n - 1);
      assert PulseTrace(n) == t + [ClockHigh, ClockLow];
      forall i | 0 <= i < |PulseTrace(n)|
        ensures !PulseTrace(n)[i].DataRead?
      {
        if i < |t| {
          assert PulseTrace(n)[i] == t[i];
        }
      }
    }
  }

  /** One pulse appended to a trace adds a rise and a fall to its clock levels. */
  lemma PairClock(t: seq<Event>)
    ensures ClockLevels(t + [ClockHigh, ClockLow]) == ClockLevels(t) + [true, false]
  {
    SnocClock(t, ClockHigh);
    SingleEvent(ClockHigh, false);
    SnocClock(t + [ClockHigh], ClockLow);
    SingleEvent(ClockLow, false);
    assert t + [ClockHigh] + [ClockLow] == t + [ClockHigh, ClockLow];
  }

  /** The readiness check that opens every poll: clock low, then one read. */
  lemma ReadyCheckShape(level: bool, start: bool)
    ensures ClockLevels([ClockLow, DataRead(level)]) == [false]
    ensures Reads([ClockLow, DataRead(level)], start) == [Sample(false, level)]
    ensures !ClockAfter([ClockLow, DataRead(level)], start)
  {
    SnocClock([ClockLow], DataRead(level));
    SnocReads([ClockLow], DataRead(level), start);
    SingleEvent(ClockLow, start);
    SingleEvent(DataRead(level), false);
  }

  /** The readout of a ready conversion: one bit cycle per level, then the
      mode's pulses. */
  lemma ReadoutShape(levels: seq<bool>, n: nat)
    ensures ClockLevels(ShiftTrace(levels) + PulseTrace(n)) == Pulses(|levels| + n)
    ensures Reads(ShiftTrace(levels) + PulseTrace(n), false) == Reads(ShiftTrace(levels), false)
    ensures levels != [] ==> !ClockAfter(ShiftTrace(levels) + PulseTrace(n), false)
  {
    ReadoutClock(levels, n);
    ReadoutReads(levels, n);
    if levels != [] {
      PulsesEndLow(|levels| + n);
    }
  }

  lemma ReadoutClock(levels: seq<bool>, n: nat)
    ensures ClockLevels(ShiftTrace(levels) + PulseTrace(n)) == Pulses(|levels| + n)
  {
    ClockLevelsAppend(ShiftTrace(levels), PulseTrace(n));
    PulseTraceClock(n);
    ShiftPulsesAppend(levels, n);
  }

  lemma ShiftPulsesAppend(levels: seq<bool>, n: nat)
    ensures ClockLevels(ShiftTrace(levels)) + Pulses(n) == Pulses(|levels| + n)
  {
    ShiftTraceShape(levels, false);
    PulsesAppend(|levels|, n);
  }

  lemma ReadoutReads(levels: seq<bool>, n: nat)
    ensures Reads(ShiftTrace(levels) + PulseTrace(n), false) == Reads(ShiftTrace(levels), false)
  {
    var shift := ShiftTrace(levels);
    PulseTraceReads(n, ClockAfter(shift, false));
    ReadsAppend(shift, PulseTrace(n), false);
    assert Reads(shift, false) + [] == Reads(shift, false);
  }

  /** After at least one complete pulse the clock is low. */
  lemma PulsesEndLow(k: nat)
    requires k > 0
    ensures Pulses(k)[2 * k - 1] == false
  {
  }

  /** A poll of a busy chip is the readiness check alone. */
  lemma BusyPollShape(dout: nat -> bool, cursor: nat, mode: Mode, start: bool)
    requires dout(cursor)
    ensures ClockLevels(RetrieveTrace(dout, cursor, mode)) == [false]
    ensures Reads(RetrieveTrace(dout, cursor, mode), start) == [Sample(false, true)]
    ensures !ClockAfter(RetrieveTrace(dout, cursor, mode), start)
  {
    ReadyCheckShape(dout(cursor), start);
    assert RetrieveTrace(dout, cursor, mode) == [ClockLow, DataRead(dout(cursor))];
  }

  /** A poll of a ready chip: the readiness check, then the readout. */
  lemma ReadyPollSplit(dout: nat -> bool, cursor: nat, mode: Mode)
    requires !dout(cursor)
    ensures RetrieveTrace(dout, cursor, mode)
      == [ClockLow, DataRead(false)] + (ShiftTrace(Levels(dout, cursor + 1, 24)) + PulseTrace(PulseCount(mode)))
  {
  }

  lemma ReadyPollShape(dout: nat -> bool, cursor: nat, mode: Mode, start: bool)
    requires !dout(cursor)
    ensures ClockLevels(RetrieveTrace(dout, cursor, mode)) == [false] + Pulses(24 + PulseCount(mode))
    ensures multiset(ClockLevels(RetrieveTrace(dout, cursor, mode)))[true] == 24 + PulseCount(mode)
    ensures !ClockAfter(RetrieveTrace(dout, cursor, mode), start)
    ensures Reads(RetrieveTrace(dout, cursor, mode), start)
      == [Sample(false, false)] + Reads(ShiftTrace(Levels(dout, cursor + 1, 24)), false)
  {
    var levels, n := Levels(dout, cursor + 1, 24), PulseCount(mode);
    ReadyPollSplit(dout, cursor, mode);
    ReadyCheckShape(false, start);
    ReadoutShape(levels, n);
    ClockAfterReadyCheck([ClockLow, DataRead(false)], ShiftTrace(levels) + PulseTrace(n), 24 + n, start);
    ReadsAppend([ClockLow, DataRead(false)], ShiftTrace(levels) + PulseTrace(n), start);
  }

  /** A readout after the readiness check adds its pulses to the clock line. */
  lemma ClockAfterReadyCheck(head: seq<Event>, readout: seq<Event>, k: nat, start: bool)
    requires ClockLevels(head) == [false]
    requires ClockLevels(readout) == Pulses(k) && !ClockAfter(readout, false)
    ensures ClockLevels(head + readout) == [false] + Pulses(k)
    ensures multiset(ClockLevels(head + readout))[true] == k
    ensures !ClockAfter(head + readout, start)
  {
    ClockLevelsAppend(head, readout);
    ClockAfterAppend(head, readout, start);
    PulsesRises(k);
  }

  /** A poll drives the clock low; when DOUT is not ready that is all, and
      otherwise 24 data pulses and the mode's pulses follow, every rise
      matched by a fall, so the clock ends low. */
  lemma RetrieveClock(dout: nat -> bool, cursor: nat, mode: Mode, start: bool)
    ensures dout(cursor) ==> ClockLevels(RetrieveTrace(dout, cursor, mode)) == [false]
    ensures !dout(cursor) ==>
      ClockLevels(RetrieveTrace(dout, cursor, mode)) == [false] + Pulses(24 + PulseCount(mode))
    ensures multiset(ClockLevels(RetrieveTrace(dout, cursor, mode)))[true]
      == (if dout(cursor) then 0 else 24 + PulseCount(mode))
    ensures !ClockAfter(RetrieveTrace(dout, cursor, mode), start)
  {
    if dout(cursor) {
      BusyPollShape(dout, cursor, mode, start);
    } else {
      ReadyPollShape(dout, cursor, mode, start);
    }
  }

  /** A poll samples DOUT once with the clock low; when it was low (ready)
      the next 24 reads follow, each with the clock high, and no read is
      taken during the trailing pulses. */
  lemma RetrieveReads(dout: nat -> bool, cursor: nat, mode: Mode, start: bool)
    ensures dout(cursor) ==> Reads(RetrieveTrace(dout, cursor, mode), start) == [Sample(false, true)]
    ensures !dout(cursor) ==>
      Reads(RetrieveTrace(dout, cursor, mode), start)
        == [Sample(false, false)] + ClockedHigh(Levels(dout, cursor + 1, 24))
  {
    if dout(cursor) {
      BusyPollShape(dout, cursor, mode, start);
    } else {
      ReadyPollShape(dout, cursor, mode, start);
      ShiftTraceShape(Levels(dout, cursor + 1, 24), false);
    }
  }

  /** A poll returns `WouldBlock` exactly when DOUT reads high; otherwise it
      returns the 24 sampled bits, most significant first, read as a
      two's-complement number, which lies in `[MIN_READING, MAX_VALUE]`. */
  lemma RetrieveValue(dout: nat -> bool, cursor: nat)
    ensures RetrieveResult(dout, cursor).WouldBlock? <==> dout(cursor)
    ensures RetrieveResult(dout, cursor).Ready? ==>
      var raw := MsbFirstValue(Levels(dout, cursor + 1, 24));
      RetrieveResult(dout, cursor).value as int == (if raw < 0x80_0000 then raw else raw - 0x100_0000)
    ensures RetrieveResult(dout, cursor).Ready? ==>
      MIN_READING <= RetrieveResult(dout, cursor).value <= MAX_VALUE
  {
    var bits := Levels(dout, cursor + 1, 24);
    Pow2Values();
    AccumulateIsMsbFirst(bits);
  }

  /** `reset` gives one clock pulse and reads DOUT twice while the clock is high. */
  lemma ResetShape(dout: nat -> bool, cursor: nat, start: bool)
    ensures ClockLevels(ResetTrace(dout, cursor)) == [true, false]
    ensures Reads(ResetTrace(dout, cursor), start)
      == [Sample(true, dout(cursor)), Sample(true, dout(cursor + 1))]
    ensures !ClockAfter(ResetTrace(dout, cursor), start)
  {
    ResetClock(dout, cursor);
    ResetReads(dout, cursor, start);
  }

  lemma ResetClock(dout: nat -> bool, cursor: nat)
    ensures ClockLevels(ResetTrace(dout, cursor)) == [true, false]
  {
    var t1 := [ClockHigh];
    var t2 := t1 + [DataRead(dout(cursor))];
    var t3 := t2 + [DataRead(dout(cursor + 1))];
    assert ResetTrace(dout, cursor) == t3 + [ClockLow];
    SingleEvent(ClockHigh, false);
    SnocClock(t1, DataRead(dout(cursor)));
    SnocClock(t2, DataRead(dout(cursor + 1)));
    SnocClock(t3, ClockLow);
  }

  lemma ResetReads(dout: nat -> bool, cursor: nat, start: bool)
    ensures Reads(ResetTrace(dout, cursor), start)
      == [Sample(true, dout(cursor)), Sample(true, dout(cursor + 1))]
  {
    var t1 := [ClockHigh];
    var t2 := t1 + [DataRead(dout(cursor))];
    var t3 := t2 + [DataRead(dout(cursor + 1))];
    assert ResetTrace(dout, cursor) == t3 + [ClockLow];
    SingleEvent(ClockHigh, start);
    SnocClock(t1, DataRead(dout(cursor)));
    SnocReads(t1, DataRead(dout(cursor)), start);
    SingleEvent(DataRead(dout(cursor)), true);
    SnocClock(t2, DataRead(dout(cursor + 1)));
    SnocReads(t2, DataRead(dout(cursor + 1)), start);
    SingleEvent(DataRead(dout(cursor + 1)), true);
    SnocReads(t3, ClockLow, start);
    SingleEvent(ClockLow, true);
  }

  /** A DOUT line that is ready at read 0 and then shifts out
      `1111 1111 1111 1111 1111 0011` (0xFFFFF3), high afterwards. */
  function Minus13Line(k: nat): bool
  {
    k != 0 && k != 21 && k != 22
  }

  lemma PatternFFFFF3()
    ensures Accumulate(Levels(Minus13Line, 1, 24)) == 0xFF_FFF3
  {
    var ones, tail := seq(20, _ => true), [false, false, true, true];
    assert Levels(Minus13Line, 1, 24) == ones + tail;
    AccumulateAppend(ones, tail);
    AccumulateOnes(20);
    Pow2Values();
    assert Accumulate(tail) == 3 by {
      assert tail[..3] == [false, false, true];
      assert tail[..3][..2] == [false, false];
      assert [false, false][..1] == [false];
    }
  }

  /** Polling that line in mode `ChBGain64` returns -13 after
      24 + 3 = 27 full clock pulses. */
  lemma ReadoutOfMinus13()
    ensures RetrieveResult(Minus13Line, 0) == Ready(-13)
    ensures ClockLevels(RetrieveTrace(Minus13Line, 0, ChBGain64)) == [false] + Pulses(27)
  {
    PatternFFFFF3();
    ConvertVectors();
    RetrieveClock(Minus13Line, 0, ChBGain64, false);
  }
}
