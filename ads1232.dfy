/**
 * The ADS1232 24-bit analog-to-digital converter (ads1232.cpp).
 *
 * Pin-level I/O is abstracted: the PDWN (power-down) and SCLK (clock) outputs
 * are fields, the DOUT input is a sequence of levels seen by successive polls,
 * and the three bytes clocked in by shiftIn are inputs.
 */
module Ads1232 {

  /** A pin number (an int in the source). */
  type Pin = int

  /**
   * One conversion as the hardware delivers it: the number of polls of the
   * ready-wait that still see DOUT high, then the three data bytes, most
   * significant first.
   */
  datatype Conversion = Conversion(busyPolls: nat, msb: bv8, mid: bv8, lsb: bv8)

  /** ready(): the converter signals a finished conversion by pulling DOUT low. */
  predicate Ready(doutHigh: bool)
  {
    !doutHigh
  }

  /**
   * The DOUT levels the ready-wait sees: HIGH for `busyPolls` polls, then LOW.
   * Ending in LOW is the abstract readiness assumption without which the
   * busy-wait of read_blocking never ends.
   */
  function DoutLevels(c: Conversion): (levels: seq<bool>)
    ensures |levels| == c.busyPolls + 1
    ensures Ready(levels[c.busyPolls])
    ensures forall j :: 0 <= j < c.busyPolls ==> !Ready(levels[j])
  {
    seq(c.busyPolls, _ => true) + [false]
  }

  /** Clock pulses of one shiftIn: one per bit. */
  const ByteClocks: nat := 8

  /** Clock pulses of read_blocking: three bytes, then one pulse that returns DOUT to idle. */
  const ReadClocks: nat := 3 * ByteClocks + 1

  /**
   * What the driver does at the converter's pins, in order: PDWN low or high,
   * a ready-wait that polled DOUT high `polls` times before seeing it low,
   * one SCLK pulse (high, then low).
   */
  datatype AdcEvent = PowerDown | PowerUp | AwaitReady(polls: nat) | Pulse

  /** n clock pulses in a row. */
  function Pulses(n: nat): seq<AdcEvent>
  {
    seq(n, _ => Pulse)
  }

  lemma PulsesAppend(m: nat, n: nat)
    ensures Pulses(m) + Pulses(n) == Pulses(m + n)
  {
    assert forall i :: 0 <= i < m + n ==> (Pulses(m) + Pulses(n))[i] == Pulse;
  }

  /** read_blocking at the pins: wait until the conversion is ready, then the clock pulses. */
  function ReadEvents(c: Conversion): seq<AdcEvent>
  {
    [AwaitReady(c.busyPolls)] + Pulses(ReadClocks)
  }

  /** offset_calibration at the pins: a read, then one extra pulse. */
  function CalibrationEvents(c: Conversion): seq<AdcEvent>
  {
    ReadEvents(c) + [Pulse]
  }

  /** A read waits for exactly the busy polls of the conversion, and clocks only once DOUT is low. */
  lemma ReadWaitsForReady(c: Conversion)
    ensures ReadEvents(c)[0] == AwaitReady(c.busyPolls)
    ensures Ready(DoutLevels(c)[c.busyPolls])
    ensures forall j :: 0 <= j < c.busyPolls ==> !Ready(DoutLevels(c)[j])
    ensures forall i :: 1 <= i < |ReadEvents(c)| ==> ReadEvents(c)[i] == Pulse
    ensures |ReadEvents(c)| == 1 + ReadClocks
  {
  }

  /** The sample as read_blocking formats it: (b1 << 16) | (b2 << 8) | b3 in a 32-bit unsigned long. */
  function Assemble(b1: bv8, b2: bv8, b3: bv8): bv32
  {
    (b1 as bv32 << 16) | (b2 as bv32 << 8) | (b3 as bv32)
  }

  /** The three OR-ed fields do not overlap: the result is b1 * 65536 + b2 * 256 + b3, below 2^24. */
  lemma AssembleValue(b1: bv8, b2: bv8, b3: bv8)
    ensures Assemble(b1, b2, b3) as int == b1 as int * 65536 + b2 as int * 256 + b3 as int
    ensures Assemble(b1, b2, b3) as int < 0x100_0000
  {
    var hi := (b1 as bv16 << 8) | b2 as bv16;
    Regroup(b1, b2, b3);
    PairValue(b1, b2);
    AppendByteValue(hi, b3);
  }

  /** Assembling three bytes is appending the low byte to the assembled upper two. */
  lemma Regroup(b1: bv8, b2: bv8, b3: bv8)
    ensures Assemble(b1, b2, b3) == (((b1 as bv16 << 8) | b2 as bv16) as bv32 << 8) | b3 as bv32
  {
  }

  lemma PairValue(b1: bv8, b2: bv8)
    ensures ((b1 as bv16 << 8) | b2 as bv16) as int == b1 as int * 256 + b2 as int
  {
  }

  lemma AppendByteValue(hi: bv16, lo: bv8)
    ensures ((hi as bv32 << 8) | lo as bv32) as int == hi as int * 256 + lo as int
  {
  }

  /** Bits 16-23, 8-15 and 0-7 of the sample give back the three bytes. */
  lemma AssembleRoundTrip(b1: bv8, b2: bv8, b3: bv8)
    ensures (Assemble(b1, b2, b3) >> 16) as bv8 == b1
    ensures ((Assemble(b1, b2, b3) >> 8) & 0xFF) as bv8 == b2
    ensures (Assemble(b1, b2, b3) & 0xFF) as bv8 == b3
    ensures Assemble(b1, b2, b3) >> 24 == 0
  {
  }

  /**
   * The ready-wait of read_blocking: poll until ready() holds. Returns the
   * index of the first poll that sees DOUT low.
   */
  method WaitReady(dout: seq<bool>) returns (polls: nat)
    requires exists i :: 0 <= i < |dout| && Ready(dout[i])
    ensures polls < |dout| && Ready(dout[polls])
    ensures forall j :: 0 <= j < polls ==> !Ready(dout[j])
  {
    ghost var k :| 0 <= k < |dout| && Ready(dout[k]);
    polls := 0;
    while !Ready(dout[polls])
      invariant polls <= k
      invariant forall j :: 0 <= j < polls ==> !Ready(dout[j])
      decreases k - polls
    {
      polls := polls + 1;
    }
  }

  class Adc {
    const pdwnPin: Pin
    const doutPin: Pin
    const sclkPin: Pin

    /** The PDWN output: high means powered up (enabled). */
    var pdwnHigh: bool
    /** The SCLK output. */
    var sclkHigh: bool
    /** Everything done at the pins so far. */
    var events: seq<AdcEvent>

    /** Stores the three pins; the outputs are not written yet and read as low. */
    constructor (pdwn: Pin, dout: Pin, sclk: Pin)
      ensures pdwnPin == pdwn && doutPin == dout && sclkPin == sclk
      ensures !pdwnHigh && !sclkHigh && events == []
    {
      pdwnPin, doutPin, sclkPin := pdwn, dout, sclk;
      pdwnHigh, sclkHigh, events := false, false, [];
    }

    /** init: clock low, reset (power cycle), then an offset calibration. */
    method Init(c: Conversion)
      modifies this
      ensures pdwnHigh && !sclkHigh
      ensures events == old(events) + [PowerDown, PowerUp] + CalibrationEvents(c)
    {
      sclkHigh := false;
      Reset();
      OffsetCalibration(c);
    }

    /** reset: disable then enable, a power cycle that leaves the converter powered up. */
    method Reset()
      modifies this
      ensures pdwnHigh
      ensures sclkHigh == old(sclkHigh) && events == old(events) + [PowerDown, PowerUp]
    {
      Disable();
      Enable();
    }

    /** enable: PDWN high. */
    method Enable()
      modifies this
      ensures pdwnHigh
      ensures sclkHigh == old(sclkHigh) && events == old(events) + [PowerUp]
    {
      pdwnHigh := true;
      events := events + [PowerUp];
    }

    /** disable: PDWN low (power down). */
    method Disable()
      modifies this
      ensures !pdwnHigh
      ensures sclkHigh == old(sclkHigh) && events == old(events) + [PowerDown]
    {
      pdwnHigh := false;
      events := events + [PowerDown];
    }

    /** One clock pulse: SCLK high, then low. */
    method ClockPulse()
      modifies this
      ensures !sclkHigh && events == old(events) + [Pulse]
      ensures pdwnHigh == old(pdwnHigh)
    {
      sclkHigh := true;
      sclkHigh := false;
      events := events + [Pulse];
    }

    /** shiftIn(dout, sclk, MSBFIRST): eight clock pulses deliver one byte. */
    method ShiftIn(b: bv8) returns (r: bv8)
      modifies this
      ensures r == b
      ensures !sclkHigh && events == old(events) + Pulses(ByteClocks)
      ensures pdwnHigh == old(pdwnHigh)
    {
      for i := 0 to ByteClocks
        invariant i > 0 ==> !sclkHigh
        invariant events == old(events) + Pulses(i)
        invariant pdwnHigh == old(pdwnHigh)
      {
        ClockPulse();
        PulsesAppend(i, 1);
      }
      r := b;
    }

    /**
     * read_blocking: wait for ready(), clock in three bytes MSB first, pulse the
     * clock once more so that DOUT returns to idle, and assemble the 24-bit sample.
     */
    method ReadBlocking(c: Conversion) returns (v: bv32)
      modifies this
      ensures v == Assemble(c.msb, c.mid, c.lsb)
      ensures !sclkHigh && events == old(events) + ReadEvents(c)
      ensures pdwnHigh == old(pdwnHigh)
    {
      var polls := WaitReady(DoutLevels(c));
      events := events + [AwaitReady(polls)];
      var b1 := ShiftIn(c.msb);
      var b2 := ShiftIn(c.mid);
      var b3 := ShiftIn(c.lsb);
      ClockPulse();
      PulsesAppend(ByteClocks, ByteClocks);
      PulsesAppend(2 * ByteClocks, ByteClocks);
      PulsesAppend(3 * ByteClocks, 1);
      v := Assemble(b1, b2, b3);
    }

    /** offset_calibration: one full read, then exactly one extra clock pulse. */
    method OffsetCalibration(c: Conversion)
      modifies this
      ensures !sclkHigh && events == old(events) + CalibrationEvents(c)
      ensures pdwnHigh == old(pdwnHigh)
    {
      var discarded := ReadBlocking(c);
      ClockPulse();
    }
  }
}
