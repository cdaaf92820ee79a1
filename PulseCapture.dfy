/** The ultrasonic range capture of the PIC18F23K22 program: TIMER3 in
    single-pulse gate mode measures the echo pulse, and the high-priority
    interrupt turns the count into a distance in centimetres (58 timer
    counts per centimetre at a 4 MHz timer clock), stores it in the next of
    16 slots, and disables itself once the buffer is full.

    The hardware registers the handler touches (PIE3.TMR3GIE, PIR3.TMR3GIF,
    TMR3, T3GCON.T3GGO_nDONE) are fields, next to the globals sensorData
    and polledSensor. Capture is the same state as a value, and Handler and
    Start are the specification functions the methods are proved against. */
module PulseCapture {
  import opened Machine

  const SensorSampleSize: nat := 16

  /** Timer counts per centimetre of distance. */
  const CountsPerCm: nat := 58

  /** The largest distance recorded; longer echoes are clamped to it. */
  const MaxDistance: nat := 255

  /** The value stored for a capture: TMR3 / 58 while TMR3 < 255 * 58,
      else 255. */
  function Distance(tmr3: uint16): (r: nat)
    ensures r <= MaxDistance
    ensures r == MaxDistance <==> tmr3 >= MaxDistance * CountsPerCm
    ensures tmr3 < MaxDistance * CountsPerCm ==> r * CountsPerCm <= tmr3 < r * CountsPerCm + CountsPerCm
  {
    if tmr3 < MaxDistance * CountsPerCm then tmr3 / CountsPerCm else MaxDistance
  }

  /** The captured state as a value. */
  datatype Capture = Capture(
    sensorData: seq<int>,
    polledSensor: int,
    tmr3gie: bool,
    tmr3gif: bool,
    tmr3: uint16,
    t3ggo: bool)

  /** The index always names a slot of the 16-slot buffer. */
  predicate WellFormed(c: Capture)
  {
    |c.sensorData| == SensorSampleSize && 0 <= c.polledSensor < SensorSampleSize
  }

  /** InterruptHandlerHigh: nothing happens unless the gate interrupt is
      both enabled and pending. Otherwise the flag is cleared, the slot at
      the old index gets the distance and no other slot changes, the index
      advances and wraps from 16 to 0, the wrap (and only the wrap)
      disables the interrupt, and the timer is cleared and re-armed. */
  function Handler(c: Capture): (c': Capture)
    requires WellFormed(c)
    ensures WellFormed(c')
    ensures !(c.tmr3gie && c.tmr3gif) ==> c' == c
    ensures c.tmr3gie && c.tmr3gif ==>
              && !c'.tmr3gif
              && c'.sensorData[c.polledSensor] == Distance(c.tmr3)
              && (forall i :: 0 <= i < SensorSampleSize && i != c.polledSensor ==> c'.sensorData[i] == c.sensorData[i])
              && (c.polledSensor < SensorSampleSize - 1 ==> c'.polledSensor == c.polledSensor + 1 && c'.tmr3gie)
              && (c.polledSensor == SensorSampleSize - 1 ==> c'.polledSensor == 0 && !c'.tmr3gie)
              && c'.tmr3 == 0 && c'.t3ggo
  {
    if c.tmr3gie && c.tmr3gif then
      var data := c.sensorData[c.polledSensor := Distance(c.tmr3)];
      var next := c.polledSensor + 1;
      var full := next >= SensorSampleSize;
      Capture(data, if full then 0 else next, !full, false, 0, true)
    else
      c
  }

  /** StartSensorCapture: index and timer to 0, single-pulse capture armed,
      interrupt enabled; the buffer and the pending flag are untouched. */
  function Start(c: Capture): (c': Capture)
    ensures c'.polledSensor == 0 && c'.tmr3 == 0 && c'.tmr3gie && c'.t3ggo
    ensures c'.sensorData == c.sensorData && c'.tmr3gif == c.tmr3gif
  {
    c.(tmr3gie := true, t3ggo := true, polledSensor := 0, tmr3 := 0)
  }

  /** What the hardware does at the end of a gated pulse: TMR3 holds the
      pulse length in counts, T3GGO_nDONE drops and TMR3GIF is raised. */
  function Pulse(c: Capture, count: uint16): (c': Capture)
  {
    c.(tmr3 := count, tmr3gif := true, t3ggo := false)
  }

  /** A run of pulses, each followed by its interrupt. */
  function Run(c: Capture, counts: seq<uint16>): (c': Capture)
    requires WellFormed(c)
    ensures WellFormed(c')
    decreases |counts|
  {
    if counts == [] then c
    else Handler(Pulse(Run(c, counts[..|counts| - 1]), counts[|counts| - 1]))
  }

  /** After a start, the first 16 pulses fill slots 0..15 once each, in
      order, with their distances; capture stays enabled until the 16th,
      which wraps the index to 0 and disables it; later pulses change no
      slot. */
  lemma {:induction false} CaptureFillsInOrder(c: Capture, counts: seq<uint16>)
    requires WellFormed(c)
    ensures var r := Run(Start(c), counts);
            var k := if |counts| < SensorSampleSize then |counts| else SensorSampleSize;
            && (forall i :: 0 <= i < k ==> r.sensorData[i] == Distance(counts[i]))
            && (forall i :: k <= i < SensorSampleSize ==> r.sensorData[i] == c.sensorData[i])
            && r.polledSensor == k % SensorSampleSize
            && r.tmr3gie == (|counts| < SensorSampleSize)
  {
    if counts != [] {
      var n := |counts|;
      var p := counts[..n - 1];
      CaptureFillsInOrder(c, p);
      var prev := Run(Start(c), p);
      var pulsed := Pulse(prev, counts[n - 1]);
      assert Run(Start(c), counts) == Handler(pulsed);
      forall i | 0 <= i < n - 1 && i < SensorSampleSize
        ensures counts[i] == p[i]
      {
      }
    }
  }

  /** The capture hardware and globals of the program. */
  class SensorCapture {
    const sensorData: array<int>
    var polledSensor: int
    var tmr3gie: bool
    var tmr3gif: bool
    var tmr3: uint16
    var t3ggo: bool

    predicate Valid()
      reads this
    {
      sensorData.Length == SensorSampleSize && 0 <= polledSensor < SensorSampleSize
    }

    /** The current state as a value. */
    function Snapshot(): (c: Capture)
      reads this, sensorData
      ensures Valid() ==> WellFormed(c)
    {
      Capture(sensorData[..], polledSensor, tmr3gie, tmr3gif, tmr3, t3ggo)
    }

    /** The globals at reset: a zeroed buffer, index 0, timer idle. */
    constructor ()
      ensures Valid() && fresh(sensorData)
      ensures Snapshot() == Capture(seq(SensorSampleSize, _ => 0), 0, false, false, 0, false)
    {
      sensorData := new int[SensorSampleSize](_ => 0);
      polledSensor, tmr3gie, tmr3gif, tmr3, t3ggo := 0, false, false, 0, false;
    }

    /** InterruptHandlerHigh, run to completion between two main-loop steps. */
    method InterruptHandlerHigh()
      requires Valid()
      modifies this, sensorData
      ensures Valid()
      ensures Snapshot() == Handler(old(Snapshot()))
    {
      if tmr3gie && tmr3gif {
        tmr3gif := false;
        sensorData[polledSensor] := Distance(tmr3);
        polledSensor := polledSensor + 1;
        if polledSensor >= SensorSampleSize {
          polledSensor := 0;
          tmr3gie := false;
        }
        tmr3 := 0;
        t3ggo := true;
      }
    }

    method StartSensorCapture()
      requires Valid()
      modifies this
      ensures Valid()
      ensures Snapshot() == Start(old(Snapshot()))
    {
      tmr3gie := false;
      t3ggo := false;
      polledSensor := 0;
      tmr3 := 0;
      t3ggo := true;
      tmr3gie := true;
    }
  }
}
