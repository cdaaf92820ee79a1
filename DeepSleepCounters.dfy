/** The PIC18F27J13 deep-sleep program that counts its wakes
    (18F27J13_deepsleep.X): PIC_Init copies the frozen PORTB pins into
    LATB, classifies the start-up into a result code and keeps two 8-bit
    counters in the retained DSGPR0/DSGPR1; main toggles RB0 on each wake
    from deep sleep.

    `Result` is a local that two flag combinations leave unassigned; the
    model returns None there, and main then sees an arbitrary stale byte. */
module DeepSleepCounters {
  import opened Machine
  import opened Pic18Rcon

  /** The registers PIC_Init and main read and write. */
  datatype State = State(wake: WakeFlags, rcon: bv8, dsgpr0: uint8, dsgpr1: uint8, latb: bv8)

  datatype InitResult = InitResult(result: Option<uint8>, state: State)

  /** `DSGPRn = DSGPRn + 1` on an 8-bit register. */
  function Inc8(x: uint8): (y: uint8)
    ensures y == (x + 1) % 0x100
  {
    if x == 0xFF then 0 else x + 1
  }

  /** The power-on and deep-sleep MCLR branches: flags idle, counters and
      LATB zeroed. */
  function ResetAll(s: State): (s': State)
    ensures s'.rcon == IdleResetFlags(s.rcon) && s'.dsgpr0 == 0 && s'.dsgpr1 == 0 && s'.latb == 0
    ensures s'.wake == s.wake
  {
    s.(rcon := IdleResetFlags(s.rcon), dsgpr0 := 0, dsgpr1 := 0, latb := 0)
  }

  /** The classification of PIC_Init as written. In deep sleep: INT0 gives
      1 and counts in DSGPR1, else DSWDT gives 1 and counts in DSGPR0 (only
      one counter moves), else DSPOR gives 2 and resets everything. Out of
      deep sleep: NOT_PD = 0 gives 0 and resets everything, else a NOT_TO
      that reads 1 gives 3 and writes the 1 it read back. Any other
      combination leaves Result unassigned and changes nothing. */
  function ClassifyAsWritten(s: State): (r: InitResult)
    ensures r.result.Some? ==> r.result.value <= 3
    ensures r.result == Some(1) <==> s.wake.ds && (s.wake.dsint0 || s.wake.dswdt)
    ensures r.result == Some(2) <==> s.wake.ds && !s.wake.dsint0 && !s.wake.dswdt && s.wake.dspor
    ensures r.result == Some(0) <==> !s.wake.ds && !NotPd(s.rcon)
    ensures r.result == Some(3) <==> !s.wake.ds && NotPd(s.rcon) && NotTo(s.rcon)
    ensures r.result.None? <==>
              || (s.wake.ds && !s.wake.dsint0 && !s.wake.dswdt && !s.wake.dspor)
              || (!s.wake.ds && NotPd(s.rcon) && !NotTo(s.rcon))
    ensures s.wake.ds && s.wake.dsint0 ==> r.state == s.(dsgpr1 := Inc8(s.dsgpr1))
    ensures s.wake.ds && !s.wake.dsint0 && s.wake.dswdt ==> r.state == s.(dsgpr0 := Inc8(s.dsgpr0))
    ensures r.result == Some(0) || r.result == Some(2) ==> r.state == ResetAll(s)
    ensures r.result == Some(3) || r.result.None? ==> r.state == s
  {
    var w := s.wake;
    if w.ds then
      if w.dsint0 then InitResult(Some(1), s.(dsgpr1 := Inc8(s.dsgpr1)))
      else if w.dswdt then InitResult(Some(1), s.(dsgpr0 := Inc8(s.dsgpr0)))
      else if w.dspor then InitResult(Some(2), ResetAll(s))
      else InitResult(None, s)
    else
      if !NotPd(s.rcon) then InitResult(Some(0), ResetAll(s))
      else if NotTo(s.rcon) then InitResult(Some(3), s.(rcon := s.rcon | NotToMask))
      else InitResult(None, s)
  }

  /** The classification as evidently intended: the watchdog branch tests
      the active-low NOT_TO for 0, the way the power-on branch tests NOT_PD,
      and so takes a watchdog time-out and sets the flag back to idle. */
  function ClassifyIntended(s: State): (r: InitResult)
    ensures r.result == Some(3) <==> !s.wake.ds && NotPd(s.rcon) && !NotTo(s.rcon)
    ensures r.result == Some(3) ==> r.state == s.(rcon := s.rcon | NotToMask) && NotTo(r.state.rcon)
    ensures !s.wake.ds && NotPd(s.rcon) && NotTo(s.rcon) ==> r.result.None? && r.state == s
  {
    var w := s.wake;
    if w.ds then ClassifyAsWritten(s)
    else if !NotPd(s.rcon) then ClassifyAsWritten(s)
    else if !NotTo(s.rcon) then InitResult(Some(3), s.(rcon := s.rcon | NotToMask))
    else InitResult(None, s)
  }

  /** The two agree on every start-up except the ones out of deep sleep
      with NOT_PD idle, where they disagree on which NOT_TO level is a
      watchdog time-out. */
  lemma IntendedDiffersOnlyOnWatchdog(s: State)
    ensures s.wake.ds || !NotPd(s.rcon) ==> ClassifyIntended(s) == ClassifyAsWritten(s)
    ensures !s.wake.ds && NotPd(s.rcon) ==>
              ClassifyIntended(s).result.Some? != ClassifyAsWritten(s).result.Some?
  {
  }

  /** A watchdog time-out out of deep sleep (NOT_PD = 1, NOT_TO = 0): as
      written PIC_Init returns an unassigned Result; as intended, 3. */
  lemma WatchdogResetUnclassified()
    ensures var s := State(WakeFlags(false, false, false, false), 0x37, 5, 7, 0);
            && !NotTo(s.rcon) && NotPd(s.rcon)
            && ClassifyAsWritten(s).result.None?
            && ClassifyIntended(s).result == Some(3)
  {
  }

  /** main's switch: result 1 toggles RB0, every other value (including a
      stale one) leaves LATB alone. */
  function Dispatch(resetType: uint8, latb: bv8): (r: bv8)
    ensures r & 0xFE == latb & 0xFE
    ensures (r & 1 != latb & 1) <==> resetType == 1
  {
    if resetType == 1 then latb ^ 1 else latb
  }

  /** One start-up: LATB is loaded from the frozen PORTB pins, PIC_Init
      classifies, and main dispatches on what it returned (the stale byte
      when Result was left unassigned). */
  function Boot(s: State, portb: bv8, stale: uint8): State
  {
    var r := ClassifyAsWritten(s.(latb := portb));
    r.state.(latb := Dispatch(r.result.GetOr(stale), r.state.latb))
  }

  /** A run of wakes from deep sleep; the pins hold the latch through deep
      sleep, so each start-up reads back the LATB of the previous one. */
  function Replay(s: State, wakes: seq<WakeFlags>, stale: uint8): State
  {
    if wakes == [] then s
    else
      var prev := Replay(s, wakes[..|wakes| - 1], stale);
      Boot(prev.(wake := wakes[|wakes| - 1]), prev.latb, stale)
  }

  predicate CountedWake(w: WakeFlags) { w.ds && (w.dsint0 || w.dswdt) }

  function Int0Wakes(wakes: seq<WakeFlags>): nat
  {
    if wakes == [] then 0
    else Int0Wakes(wakes[..|wakes| - 1]) + (if wakes[|wakes| - 1].dsint0 then 1 else 0)
  }

  function DswdtWakes(wakes: seq<WakeFlags>): nat
  {
    if wakes == [] then 0
    else
      var w := wakes[|wakes| - 1];
      DswdtWakes(wakes[..|wakes| - 1]) + (if !w.dsint0 && w.dswdt then 1 else 0)
  }

  /** Over a run of INT0 and DSWDT wakes, DSGPR1 counts the INT0 wakes and
      DSGPR0 the DSWDT ones (INT0 taking precedence), both modulo 256. */
  lemma {:induction false} WakesCounted(s: State, wakes: seq<WakeFlags>, stale: uint8)
    requires forall i :: 0 <= i < |wakes| ==> CountedWake(wakes[i])
    ensures Replay(s, wakes, stale).dsgpr1 == (s.dsgpr1 + Int0Wakes(wakes)) % 0x100
    ensures Replay(s, wakes, stale).dsgpr0 == (s.dsgpr0 + DswdtWakes(wakes)) % 0x100
  {
    if wakes != [] {
      var n := |wakes|;
      var p := wakes[..n - 1];
      WakesCounted(s, p, stale);
      var w := wakes[n - 1];
      var prev := Replay(s, p, stale);
      assert forall i :: 0 <= i < |p| ==> p[i] == wakes[i];
      assert Int0Wakes(wakes) == Int0Wakes(p) + (if w.dsint0 then 1 else 0);
      assert DswdtWakes(wakes) == DswdtWakes(p) + (if !w.dsint0 && w.dswdt then 1 else 0);
      WakeStep(prev, w, stale);
      ModSucc(s.dsgpr1, Int0Wakes(p));
      ModSucc(s.dsgpr0, DswdtWakes(p));
    }
  }

  /** Over a run of INT0 and DSWDT wakes, RB0 ends toggled once per wake. */
  lemma {:induction false} WakesToggleRB0(s: State, wakes: seq<WakeFlags>, stale: uint8)
    requires forall i :: 0 <= i < |wakes| ==> CountedWake(wakes[i])
    ensures Replay(s, wakes, stale).latb == if |wakes| % 2 == 0 then s.latb else s.latb ^ 1
  {
    if wakes != [] {
      var n := |wakes|;
      var p := wakes[..n - 1];
      assert forall i :: 0 <= i < |p| ==> p[i] == wakes[i];
      WakesToggleRB0(s, p, stale);
      var prev := Replay(s, p, stale);
      WakeStep(prev, wakes[n - 1], stale);
      if (n - 1) % 2 == 0 {
        assert prev.latb == s.latb;
        assert n % 2 == 1;
      } else {
        assert prev.latb == s.latb ^ 1;
        ToggleTwice(s.latb);
        assert n % 2 == 0;
      }
    }
  }

  /** One INT0 or DSWDT wake: exactly one counter moves, RB0 toggles. */
  lemma WakeStep(prev: State, w: WakeFlags, stale: uint8)
    requires CountedWake(w)
    ensures var next := Boot(prev.(wake := w), prev.latb, stale);
            && next.dsgpr1 == (if w.dsint0 then Inc8(prev.dsgpr1) else prev.dsgpr1)
            && next.dsgpr0 == (if w.dsint0 then prev.dsgpr0 else Inc8(prev.dsgpr0))
            && next.latb == prev.latb ^ 1
  {
    var r := ClassifyAsWritten(prev.(wake := w, latb := prev.latb));
    assert r.result == Some(1);
  }

  lemma ModSucc(a: nat, k: nat)
    ensures ((a + k) % 0x100 + 1) % 0x100 == (a + k + 1) % 0x100
  {
  }

  lemma ToggleTwice(x: bv8)
    ensures x ^ 1 ^ 1 == x
  {
  }

  /** The registers. */
  class Registers {
    var ds: bool
    var dsint0: bool
    var dswdt: bool
    var dspor: bool
    var rcon: bv8
    var dsgpr0: uint8
    var dsgpr1: uint8
    var latb: bv8

    function Snapshot(): State
      reads this
    {
      State(WakeFlags(ds, dsint0, dswdt, dspor), rcon, dsgpr0, dsgpr1, latb)
    }

    constructor (s: State)
      ensures Snapshot() == s
    {
      ds, dsint0, dswdt, dspor := s.wake.ds, s.wake.dsint0, s.wake.dswdt, s.wake.dspor;
      rcon, dsgpr0, dsgpr1, latb := s.rcon, s.dsgpr0, s.dsgpr1, s.latb;
    }

    /** PIC_Init from `LATB = PORTB` to `return Result`. */
    method PicInit(portb: bv8) returns (result: Option<uint8>)
      modifies this
      ensures InitResult(result, Snapshot()) == ClassifyAsWritten(old(Snapshot()).(latb := portb))
    {
      latb := portb;
      result := None;
      if ds {
        if dsint0 {
          result := Some(1);
          dsgpr1 := Inc8(dsgpr1);
        } else if dswdt {
          result := Some(1);
          dsgpr0 := Inc8(dsgpr0);
        } else if dspor {
          result := Some(2);
          rcon := rcon | ResetFlagsMask;
          dsgpr0, dsgpr1 := 0, 0;
          latb := 0;
        }
      } else {
        if rcon & NotPdMask == 0 {
          result := Some(0);
          rcon := rcon | ResetFlagsMask;
          dsgpr0, dsgpr1 := 0, 0;
          latb := 0;
        } else if rcon & NotToMask != 0 {
          result := Some(3);
          rcon := rcon | NotToMask;
        }
      }
    }

    /** main up to the deep-sleep entry. */
    method RunMain(portb: bv8, stale: uint8)
      modifies this
      ensures Snapshot() == Boot(old(Snapshot()), portb, stale)
    {
      var result := PicInit(portb);
      var resetType := result.GetOr(stale);
      if resetType == 1 {
        latb := latb ^ 1;
      }
    }
  }
}
