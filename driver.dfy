/** The HX711 driver object: it owns the clock output (PD_SCK), the data
    input (DOUT) and the current mode, and performs the protocol on them. */
module Driver {
  import opened Conversion
  import opened Protocol

  /** The pieces a ready poll appends, one after the other, make up its trace. */
  lemma ReadyPollTrace(dout: nat -> bool, cursor: nat, mode: Mode, before: seq<Event>)
    requires !dout(cursor)
    ensures before + [ClockLow] + [DataRead(false)]
      + ShiftTrace(Levels(dout, cursor + 1, 24)) + PulseTrace(PulseCount(mode))
      == before + RetrieveTrace(dout, cursor, mode)
  {
  }

  /** The data-read events of reads `start .. start + n - 1`. */
  function ReadEvents(dout: nat -> bool, start: nat, n: nat): seq<Event>
  {
    if n == 0 then [] else ReadEvents(dout, start, n - 1) + [DataRead(dout(start + n - 1))]
  }

  lemma AppendAssoc(a: seq<Event>, b: seq<Event>, c: seq<Event>)
    ensures (a + b) + c == a + (b + c)
  {
  }

  /** The pieces `reset` appends, one after the other, make up its trace. */
  lemma ResetTraceParts(dout: nat -> bool, cursor: nat, before: seq<Event>)
    ensures before + [ClockHigh] + ReadEvents(dout, cursor, 2) + [ClockLow]
      == before + ResetTrace(dout, cursor)
  {
    assert ReadEvents(dout, cursor, 1) == [DataRead(dout(cursor))];
    assert ReadEvents(dout, cursor, 2) == ReadEvents(dout, cursor, 1) + [DataRead(dout(cursor + 1))];
  }

  class Hx711 {
    /** The level DOUT reports at its `k`-th read, for every `k`. */
    const dout: nat -> bool
    /** Number of DOUT reads taken so far. */
    var cursor: nat
    /** PD_SCK's level when the pin was handed to the driver. */
    const initialClock: bool
    /** The level currently driven on PD_SCK. */
    var clock: bool
    /** Everything done on the pins and the delay provider, in order. */
    var trace: seq<Event>
    /** Channel and gain the next readout selects. */
    var mode: Mode

    /** The clock level and the number of reads are those the trace shows. */
    ghost predicate Valid()
      reads this
    {
      && clock == ClockAfter(trace, initialClock)
      && |Reads(trace, initialClock)| == cursor
    }

    /** `Hx711::new`: drive PD_SCK low, start in `ChAGain128`, then `reset`. */
    constructor (dout: nat -> bool, clockLevel: bool)
      ensures Valid()
      ensures this.dout == dout && initialClock == clockLevel
      ensures mode == ChAGain128 && !clock && cursor == 2
      ensures trace == [ClockLow] + ResetTrace(dout, 0)
    {
      this.dout := dout;
      initialClock := clockLevel;
      clock := clockLevel;
      cursor := 0;
      trace := [];
      mode := ChAGain128;
      new;
      SetLow();
      Reset();
    }

    /** `OutputPin::set_high` on PD_SCK. */
    method SetHigh()
      requires Valid()
      modifies this
      ensures Valid() && clock
      ensures trace == old(trace) + [ClockHigh]
      ensures cursor == old(cursor) && mode == old(mode)
    {
      SnocClock(trace, ClockHigh);
      SnocReads(trace, ClockHigh, initialClock);
      SingleEvent(ClockHigh, clock);
      clock := true;
      trace := trace + [ClockHigh];
    }

    /** `OutputPin::set_low` on PD_SCK. */
    method SetLow()
      requires Valid()
      modifies this
      ensures Valid() && !clock
      ensures trace == old(trace) + [ClockLow]
      ensures cursor == old(cursor) && mode == old(mode)
    {
      SnocClock(trace, ClockLow);
      SnocReads(trace, ClockLow, initialClock);
      SingleEvent(ClockLow, clock);
      clock := false;
      trace := trace + [ClockLow];
    }

    /** `InputPin::is_high` on DOUT: the next level of the line. */
    method IsHigh() returns (high: bool)
      requires Valid()
      modifies this
      ensures Valid() && high == dout(old(cursor))
      ensures trace == old(trace) + [DataRead(high)]
      ensures cursor == old(cursor) + 1 && clock == old(clock) && mode == old(mode)
    {
      high := dout(cursor);
      SnocClock(trace, DataRead(high));
      SnocReads(trace, DataRead(high), initialClock);
      SingleEvent(DataRead(high), clock);
      trace := trace + [DataRead(high)];
      cursor := cursor + 1;
    }

    /** `DelayUs::delay_us`: recorded, with no effect on the pins. */
    method Delay(us: nat)
      requires Valid()
      modifies this
      ensures Valid()
      ensures trace == old(trace) + [DelayUs(us)]
      ensures cursor == old(cursor) && clock == old(clock) && mode == old(mode)
    {
      SnocClock(trace, DelayUs(us));
      SnocReads(trace, DelayUs(us), initialClock);
      SingleEvent(DelayUs(us), clock);
      trace := trace + [DelayUs(us)];
    }

    /** `Hx711::set_mode`: stores the mode and touches no pin. */
    method SetMode(m: Mode)
      requires Valid()
      modifies this
      ensures Valid() && mode == m
      ensures trace == old(trace) && cursor == old(cursor) && clock == old(clock)
    {
      mode := m;
    }

    /** `Hx711::reset`: clock high, two reads of DOUT, clock low. */
    method Reset()
      requires Valid()
      modifies this
      ensures Valid() && !clock
      ensures trace == old(trace) + ResetTrace(dout, old(cursor))
      ensures cursor == old(cursor) + 2 && mode == old(mode)
    {
      SetHigh();
      for k := 1 to 3
        invariant Valid() && clock && mode == old(mode)
        invariant cursor == old(cursor) + (k - 1)
        invariant trace == old(trace) + [ClockHigh] + ReadEvents(dout, old(cursor), k - 1)
      {
        var high := IsHigh();
        AppendAssoc(old(trace) + [ClockHigh], ReadEvents(dout, old(cursor), k - 1), [DataRead(high)]);
      }
      SetLow();
      ResetTraceParts(dout, old(cursor), old(trace));
    }

    /** One iteration of `retrieve`'s readout loop on the pins: clock high,
        1 µs, sample DOUT, clock low, 1 µs. */
    method ClockInBit() returns (high: bool)
      requires Valid() && !clock
      modifies this
      ensures Valid() && !clock && mode == old(mode)
      ensures high == dout(old(cursor)) && cursor == old(cursor) + 1
      ensures trace == old(trace) + BitCycle(high)
    {
      SetHigh();
      Delay(1);
      high := IsHigh();
      SetLow();
      Delay(1);
    }

    /** The readout loop of `retrieve`: 24 bits shifted into `count`, most
        significant first, one clock pulse each. */
    method ShiftIn() returns (count: i32)
      requires Valid() && !clock
      modifies this
      ensures Valid() && !clock && mode == old(mode)
      ensures count as int == Accumulate(Levels(dout, old(cursor), 24))
      ensures trace == old(trace) + ShiftTrace(Levels(dout, old(cursor), 24))
      ensures cursor == old(cursor) + 24
    {
      count := 0;
      for i := 0 to 24
        invariant Valid() && !clock && mode == old(mode)
        invariant cursor == old(cursor) + i
        invariant count as int == Accumulate(Levels(dout, old(cursor), i))
        invariant trace == old(trace) + ShiftTrace(Levels(dout, old(cursor), i))
      {
        ShiftStep(dout, old(cursor), i);
        ghost var shifted := ShiftTrace(Levels(dout, old(cursor), i));
        count := ShiftLeft1(count);
        var high := ClockInBit();
        if high {
          count := count + 1;
        }
        AppendAssoc(old(trace), shifted, BitCycle(high));
      }
    }

    /** The trailing loop of `retrieve`: `n` clock pulses with no delay. */
    method PulseClock(n: nat)
      requires Valid() && !clock
      modifies this
      ensures Valid() && !clock && mode == old(mode) && cursor == old(cursor)
      ensures trace == old(trace) + PulseTrace(n)
    {
      for j := 0 to n
        invariant Valid() && !clock && mode == old(mode) && cursor == old(cursor)
        invariant trace == old(trace) + PulseTrace(j)
      {
        SetHigh();
        SetLow();
      }
    }

    /** `Hx711::retrieve`: a non-blocking poll. Drives PD_SCK low and reads
        DOUT; high means no conversion is ready. Otherwise shifts in 24 bits
        with one pulse each, gives the mode's trailing pulses, and returns
        the sign-extended value. */
    method Retrieve() returns (r: Poll)
      requires Valid()
      modifies this
      ensures Valid() && !clock && mode == old(mode)
      ensures r == RetrieveResult(dout, old(cursor))
      ensures trace == old(trace) + RetrieveTrace(dout, old(cursor), mode)
      ensures cursor == old(cursor) + (if r.WouldBlock? then 1 else 25)
    {
      SetLow();
      var busy := IsHigh();
      if busy {
        return WouldBlock;
      }
      var count := ShiftIn();
      PulseClock(PulseCount(mode));
      ReadyPollTrace(dout, old(cursor), mode, old(trace));
      Pow2Values();
      r := Ready(I24ToI32(count));
    }
  }

  /** A DOUT line whose first two reads go to the reset in `new`, and which
      then behaves like `Minus13Line`: ready, then 0xFFFFF3. */
  function Minus13AfterReset(k: nat): bool
  {
    k >= 2 && Minus13Line(k - 2)
  }

  /** The end-to-end scenario on the driver itself: construct it, select
      `ChBGain64`, poll once. The poll returns -13 and its events drive the
      clock low and then give exactly 27 full pulses. */
  method ReadMinus13() returns (r: Poll, events: seq<Event>)
    ensures r == Ready(-13)
    ensures ClockLevels(events) == [false] + Pulses(27)
    ensures multiset(ClockLevels(events))[true] == 27
  {
    var sensor := new Hx711(Minus13AfterReset, false);
    sensor.SetMode(ChBGain64);
    var before := sensor.trace;
    r := sensor.Retrieve();
    events := sensor.trace[|before|..];
    assert events == RetrieveTrace(Minus13AfterReset, 2, ChBGain64);
    ShiftedLine();
    ReadoutOfMinus13();
    RetrieveClock(Minus13AfterReset, 2, ChBGain64, false);
    PulsesRises(27);
  }

  /** After the reset, the line shifts out what `Minus13Line` does from read 0. */
  lemma ShiftedLine()
    ensures Minus13AfterReset(2) == Minus13Line(0)
    ensures Levels(Minus13AfterReset, 3, 24) == Levels(Minus13Line, 1, 24)
    ensures RetrieveResult(Minus13AfterReset, 2) == RetrieveResult(Minus13Line, 0)
  {
    assert Levels(Minus13AfterReset, 3, 24) == Levels(Minus13Line, 1, 24);
  }
}
