/** The PIC32MX795 trainer program: a busy-wait millisecond delay on the
    32-bit core timer, buffered UART send and receive, a receive-and-echo
    step, and the main loop that walks one lit LED along the eight PORTE
    pins, advancing every half second or on every echoed character.

    The core timer is sampled through a sequence of readings, and the UART
    is a receive queue and a transmit log. */
module Trainer {
  import opened Machine

  const SystemClock: nat := 8000000

  /** GetSystemClock() / 1000: core-timer cycles in a millisecond. */
  const CyclesPerMs: nat := SystemClock / 1000

  const MaxCount: nat := 0xFFFF_FFFF

  /** 2^k, the value of `1 << k` for the small shifts used here. */
  function Bit(k: nat): (r: nat)
    ensures r >= 1
  {
    if k == 0 then 1 else 2 * Bit(k - 1)
  }

  /** GetPeripheralClock(): the system clock divided by 2^PBDIV (PBDIV is
      a two-bit field). The division is exact. */
  function PeripheralClock(pbdiv: nat): (hz: nat)
    requires pbdiv < 4
    ensures hz * Bit(pbdiv) == SystemClock
    ensures hz >= 1000000 && hz <= SystemClock
  {
    assert Bit(1) == 2 && Bit(2) == 4 && Bit(3) == 8;
    SystemClock / Bit(pbdiv)
  }

  // ---------------------------------------------------------------------
  // DelayMS

  /** The cycle count DelayMS waits for: Delay * 8000 when Delay is below
      0xFFFFFFFF / 8000, else 0xFFFFFFFF. The product never wraps, and the
      wait is never shorter than asked unless the request itself exceeds
      32 bits. */
  function DelayTarget(delay: uint32): (target: uint32)
    ensures delay < MaxCount / CyclesPerMs ==> target == delay * CyclesPerMs && delay * CyclesPerMs <= MaxCount
    ensures delay >= MaxCount / CyclesPerMs ==> target == MaxCount
    ensures delay * CyclesPerMs <= MaxCount ==> target >= delay * CyclesPerMs
    ensures target < delay * CyclesPerMs ==> delay * CyclesPerMs > MaxCount
  {
    if delay < MaxCount / CyclesPerMs then delay * CyclesPerMs else MaxCount
  }

  /** `Time1 - Time0` on unsigned 32-bit values: the number of ticks from
      Time0 forward to Time1, through a wrap of the counter if need be. */
  function Elapsed(time0: uint32, time1: uint32): (ticks: uint32)
    ensures (time0 + ticks) % 0x1_0000_0000 == time1
  {
    (time1 - time0) % 0x1_0000_0000
  }

  /** Any span shorter than a full turn of the counter is measured
      exactly, wherever the counter wraps. */
  lemma ElapsedMeasuresSpan(time0: uint32, span: nat)
    requires span < 0x1_0000_0000
    ensures Elapsed(time0, (time0 + span) % 0x1_0000_0000) == span
  {
    var time1 := (time0 + span) % 0x1_0000_0000;
    if time0 + span < 0x1_0000_0000 {
      assert time1 - time0 == span;
    } else {
      assert time1 == time0 + span - 0x1_0000_0000;
      assert time1 - time0 == span - 0x1_0000_0000;
    }
  }

  /** DelayMS over the core-timer readings it takes: readings[0] is Time0
      and each later one a pass of the spin loop. It returns the reading at
      which the loop leaves: the first whose distance from Time0 reaches
      the target. None means the readings ran out first (the real loop
      would still be spinning). */
  method DelayMS(delay: uint32, readings: seq<uint32>) returns (exit: Option<nat>)
    requires |readings| > 0
    ensures exit.Some? ==>
              && 1 <= exit.value < |readings|
              && Elapsed(readings[0], readings[exit.value]) >= DelayTarget(delay)
              && forall j :: 1 <= j < exit.value ==> Elapsed(readings[0], readings[j]) < DelayTarget(delay)
    ensures exit.None? ==> forall j :: 1 <= j < |readings| ==> Elapsed(readings[0], readings[j]) < DelayTarget(delay)
  {
    var time0 := readings[0];
    var target := DelayTarget(delay);
    var i := 1;
    while i < |readings|
      invariant 1 <= i <= |readings|
      invariant forall j :: 1 <= j < i ==> Elapsed(time0, readings[j]) < target
    {
      var time1 := readings[i];
      time1 := Elapsed(time0, time1);
      if time1 >= target {
        return Some(i);
      }
      i := i + 1;
    }
    return None;
  }

  // ---------------------------------------------------------------------
  // GetDataBuffer's line

  const CR: uint8 := 13

  /** How many characters GetDataBuffer stores from a receive queue: those
      before the first carriage return, at most maxSize, and no more than
      the queue holds. */
  function LineLength(rx: seq<uint8>, maxSize: nat): (n: nat)
    ensures n <= maxSize && n <= |rx|
    ensures forall i :: 0 <= i < n ==> rx[i] != CR
    ensures n < maxSize ==> n == |rx| || rx[n] == CR
  {
    if maxSize == 0 || rx == [] || rx[0] == CR then 0
    else 1 + LineLength(rx[1..], maxSize - 1)
  }

  /** The characters a line takes off the queue: the stored ones, and the
      carriage return that ended it, which is consumed but not stored. */
  function LineConsumed(rx: seq<uint8>, maxSize: nat): (k: nat)
    ensures k <= |rx|
    ensures k == LineLength(rx, maxSize) || (k == LineLength(rx, maxSize) + 1 && rx[k - 1] == CR)
    ensures var n := LineLength(rx, maxSize); n < maxSize && n < |rx| ==> rx[n] == CR && k == n + 1
    ensures var n := LineLength(rx, maxSize); n == maxSize || n == |rx| ==> k == n
  {
    var n := LineLength(rx, maxSize);
    if n < maxSize && n < |rx| then n + 1 else n
  }

  // ---------------------------------------------------------------------
  // The LED chase

  /** `rTemp <<= 1; if (rTemp > 0x80) rTemp = 1;` on a 32-bit unsigned.
      The next value never leaves LATE's eight bits. The exact value is
      stated only for rTemp below 2^31; above it the shift wraps (0x8000_0000
      becomes 0), which the chase never reaches. */
  function ChaseStep(rTemp: uint32): (next: uint32)
    ensures next <= 0x80
    ensures rTemp <= 0x40 ==> next == 2 * rTemp
    ensures rTemp > 0x40 && rTemp < 0x8000_0000 ==> next == 1
  {
    var shifted := (rTemp * 2) % 0x1_0000_0000;
    if shifted > 0x80 then 1 else shifted
  }

  /** The lit bit walks 1, 2, 4, ..., 0x80 and back to 1. */
  lemma ChaseCycles(k: nat)
    requires k < 8
    ensures Bit(k) <= 0x80
    ensures ChaseStep(Bit(k)) == Bit((k + 1) % 8)
  {
    assert Bit(1) == 2 && Bit(2) == 4 && Bit(3) == 8 && Bit(4) == 16;
    assert Bit(5) == 32 && Bit(6) == 64 && Bit(7) == 128;
  }

  lemma MovesModulo(m: nat)
    ensures (m % 8 + 1) % 8 == (m + 1) % 8 && (m + 1 - 1) % 8 == m % 8
  {
  }

  /** One pass of main's loop: whether EchoRxTx echoed, and the core timer
      reading Time1. */
  datatype ChaseInput = ChaseInput(echoed: bool, time1: uint32)

  datatype ChaseState = ChaseState(time0: uint32, rTemp: uint32, late: uint32, moves: nat)

  /** Half a second of core-timer ticks, GetSystemClock() >> 1. */
  const HalfSecond: nat := SystemClock / 2

  predicate Advances(st: ChaseState, x: ChaseInput)
  {
    x.echoed || Elapsed(st.time0, x.time1) >= HalfSecond
  }

  function ChasePass(st: ChaseState, x: ChaseInput): ChaseState
  {
    if Advances(st, x) then ChaseState(x.time1, ChaseStep(st.rTemp), st.rTemp, st.moves + 1)
    else st
  }

  function ChaseRun(st: ChaseState, xs: seq<ChaseInput>): ChaseState
  {
    if xs == [] then st else ChasePass(ChaseRun(st, xs[..|xs| - 1]), xs[|xs| - 1])
  }

  /** After any number of passes from `rTemp = 1; LATE = 0`, with m the
      number of moves so far: rTemp is the single bit m mod 8, LATE is 0
      and Time0 the starting reading before the first move, and LATE is
      the single bit (m - 1) mod 8 after it. */
  lemma {:induction false} ChaseKeepsOneBit(time0: uint32, xs: seq<ChaseInput>)
    ensures var st := ChaseRun(ChaseState(time0, 1, 0, 0), xs);
            && st.rTemp == Bit(st.moves % 8)
            && (st.moves == 0 ==> st.late == 0 && st.time0 == time0)
            && (st.moves > 0 ==> st.late == Bit((st.moves - 1) % 8))
  {
    if xs != [] {
      var n := |xs|;
      ChaseKeepsOneBit(time0, xs[..n - 1]);
      var prev := ChaseRun(ChaseState(time0, 1, 0, 0), xs[..n - 1]);
      var st := ChasePass(prev, xs[n - 1]);
      assert ChaseRun(ChaseState(time0, 1, 0, 0), xs) == st;
      if Advances(prev, xs[n - 1]) {
        MoveKeepsOneBit(prev, xs[n - 1]);
      }
    }
  }

  /** `Time0 = Time1` on each move: after at least one move, Time0 is the
      reading of the pass that made the latest move, so the next half
      second is counted from it. */
  lemma {:induction false} ChaseTime0IsLastMove(time0: uint32, xs: seq<ChaseInput>)
    ensures var st := ChaseRun(ChaseState(time0, 1, 0, 0), xs);
            st.moves > 0 ==>
              exists j :: 0 <= j < |xs| && st.time0 == xs[j].time1 &&
                          ChaseRun(ChaseState(time0, 1, 0, 0), xs[..j + 1]).moves == st.moves
  {
    if xs != [] {
      var n := |xs|;
      var start := ChaseState(time0, 1, 0, 0);
      var prev := ChaseRun(start, xs[..n - 1]);
      var st := ChasePass(prev, xs[n - 1]);
      assert ChaseRun(start, xs) == st;
      if Advances(prev, xs[n - 1]) {
        assert xs[..n] == xs;
        assert st.time0 == xs[n - 1].time1;
      } else if st.moves > 0 {
        ChaseTime0IsLastMove(time0, xs[..n - 1]);
        var j :| 0 <= j < n - 1 && prev.time0 == xs[..n - 1][j].time1 &&
                 ChaseRun(start, xs[..n - 1][..j + 1]).moves == prev.moves;
        assert xs[..n - 1][..j + 1] == xs[..j + 1];
        assert xs[..n - 1][j] == xs[j];
      }
    }
  }

  /** One move turns the lit bit m mod 8 into bit (m + 1) mod 8 and leaves
      the old one in LATE. */
  lemma MoveKeepsOneBit(prev: ChaseState, x: ChaseInput)
    requires Advances(prev, x) && prev.rTemp == Bit(prev.moves % 8)
    ensures var st := ChasePass(prev, x);
            && st.moves == prev.moves + 1
            && st.rTemp == Bit(st.moves % 8)
            && st.late == Bit((st.moves - 1) % 8)
  {
    ChaseCycles(prev.moves % 8);
    MovesModulo(prev.moves);
  }

  /** main's endless loop, over a finite run of passes: it leaves LATE and
      rTemp as the specification says. */
  method LedChase(time0: uint32, xs: seq<ChaseInput>) returns (late: uint32, rTemp: uint32)
    ensures var st := ChaseRun(ChaseState(time0, 1, 0, 0), xs); late == st.late && rTemp == st.rTemp
  {
    var t0 := time0;
    rTemp := 1;
    late := 0;
    ghost var moves := 0;
    var i := 0;
    while i < |xs|
      invariant 0 <= i <= |xs|
      invariant ChaseRun(ChaseState(time0, 1, 0, 0), xs[..i]) == ChaseState(t0, rTemp, late, moves)
    {
      assert xs[..i + 1][..i] == xs[..i];
      var time1 := xs[i].time1;
      if xs[i].echoed || Elapsed(t0, time1) >= HalfSecond {
        t0 := time1;
        late := rTemp;
        rTemp := ChaseStep(rTemp);
        moves := moves + 1;
      }
      i := i + 1;
    }
    assert xs[..|xs|] == xs;
  }

  // ---------------------------------------------------------------------
  // The UART

  /** UART1 as a queue of received bytes and a log of transmitted ones. */
  class SerialPort {
    var rx: seq<uint8>
    var tx: seq<uint8>

    constructor (incoming: seq<uint8>)
      ensures rx == incoming && tx == []
    {
      rx, tx := incoming, [];
    }

    /** SendDataBuffer: exactly `size` bytes, buffer[0..size), in order. */
    method SendDataBuffer(buffer: array<uint8>, size: uint32)
      requires size <= buffer.Length
      modifies this
      ensures tx == old(tx) + buffer[..size] && rx == old(rx)
    {
      var i := 0;
      var remaining := size;
      while remaining != 0
        invariant 0 <= i <= size && remaining == size - i
        invariant tx == old(tx) + buffer[..i] && rx == old(rx)
      {
        tx := tx + [buffer[i]];
        assert buffer[..i + 1] == buffer[..i] + [buffer[i]];
        i := i + 1;
        remaining := remaining - 1;
      }
    }

    /** GetDataBuffer: reads into buffer until a carriage return (consumed,
        not stored) or until maxSize bytes are stored. When the queue runs
        dry first, the real routine keeps waiting; here it stops and says
        so. */
    method GetDataBuffer(buffer: array<uint8>, maxSize: uint32) returns (numChar: uint32, starved: bool)
      requires maxSize <= buffer.Length
      modifies this, buffer
      ensures numChar == LineLength(old(rx), maxSize)
      ensures buffer[..numChar] == old(rx)[..numChar]
      ensures buffer[numChar..] == old(buffer[numChar..])
      ensures rx == old(rx)[LineConsumed(old(rx), maxSize)..] && tx == old(tx)
      ensures starved <==> numChar < maxSize && numChar == |old(rx)|
    {
      numChar := 0;
      starved := false;
      while numChar < maxSize
        invariant numChar <= maxSize && numChar <= |old(rx)|
        invariant LineLength(old(rx)[numChar..], maxSize - numChar) + numChar == LineLength(old(rx), maxSize)
        invariant buffer[..numChar] == old(rx)[..numChar]
        invariant buffer[numChar..] == old(buffer[numChar..])
        invariant rx == old(rx)[numChar..] && tx == old(tx)
        decreases maxSize - numChar
      {
        if rx == [] {
          starved := true;
          assert LineConsumed(old(rx), maxSize) == numChar;
          return;
        }
        var character := rx[0];
        rx := rx[1..];
        if character == CR {
          assert LineConsumed(old(rx), maxSize) == numChar + 1;
          return;
        }
        buffer[numChar] := character;
        assert old(rx)[numChar..][1..] == old(rx)[numChar + 1..];
        numChar := numChar + 1;
        assert buffer[..numChar] == old(rx)[..numChar];
      }
      assert LineConsumed(old(rx), maxSize) == numChar;
    }

    /** EchoRxTx: 1 exactly when a byte was waiting. That byte is taken off
        the queue and echoed if the transmitter is ready, else dropped. */
    method EchoRxTx(transmitterReady: bool) returns (echoed: uint32)
      modifies this
      ensures echoed == 1 <==> old(rx) != []
      ensures echoed == 0 || echoed == 1
      ensures old(rx) != [] ==> rx == old(rx)[1..] && tx == old(tx) + (if transmitterReady then [old(rx)[0]] else [])
      ensures old(rx) == [] ==> rx == old(rx) && tx == old(tx)
    {
      if rx != [] {
        var character := rx[0];
        rx := rx[1..];
        if transmitterReady {
          tx := tx + [character];
        }
        return 1;
      }
      return 0;
    }
  }
}
