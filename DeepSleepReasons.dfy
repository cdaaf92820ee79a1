/** The PIC18F27J13 deep-sleep program that names its wake reasons
    (18F27J13_deepsleep.8): PIC_Init copies the frozen PORTB pins into
    LATB, raises RB1 while it classifies the start-up into an eWakeReason,
    and lowers RB1 when done; main toggles RB2 on each deep-sleep watchdog
    wake and RB3 on each INT0 wake.

    Every write PIC_Init makes to LATB is kept, in order, so that the RB1
    pulse around the classification can be stated. */
module DeepSleepReasons {
  import opened Machine
  import opened Pic18Rcon

  /** eWakeReason; the enumerators are 0 to 4 in this order. */
  datatype WakeReason = POR | WDTO | DSPOR | DSWDTO | DSWINT0

  function Ordinal(r: WakeReason): (n: uint8)
    ensures n <= 4
    ensures n == 0 <==> r == POR
    ensures n == 1 <==> r == WDTO
    ensures n == 2 <==> r == DSPOR
    ensures n == 3 <==> r == DSWDTO
    ensures n == 4 <==> r == DSWINT0
  {
    match r
    case POR => 0
    case WDTO => 1
    case DSPOR => 2
    case DSWDTO => 3
    case DSWINT0 => 4
  }

  const RB1: bv8 := 0x02
  const RB2: bv8 := 0x04
  const RB3: bv8 := 0x08

  datatype State = State(wake: WakeFlags, rcon: bv8, latb: bv8)

  /** The reason PIC_Init returns (None when Result is left unassigned),
      the registers it leaves, and the values it wrote to LATB in order. */
  datatype InitResult = InitResult(result: Option<WakeReason>, state: State, latbWrites: seq<bv8>)

  /** The branch of PIC_Init as written, without the LATB writes around it.
      In deep sleep: INT0, then DSWDT, then DSPOR (which idles the RCON
      flags and clears LATB). Out of deep sleep: NOT_PD = 0 is a power-on
      (the same resets), else a NOT_TO that reads 1 is taken as a watchdog
      time-out and the 1 it read is written back. Nothing else assigns. */
  function ReasonAsWritten(s: State): (r: Option<WakeReason>)
    ensures r == Some(DSWINT0) <==> s.wake.ds && s.wake.dsint0
    ensures r == Some(DSWDTO) <==> s.wake.ds && !s.wake.dsint0 && s.wake.dswdt
    ensures r == Some(DSPOR) <==> s.wake.ds && !s.wake.dsint0 && !s.wake.dswdt && s.wake.dspor
    ensures r == Some(POR) <==> !s.wake.ds && !NotPd(s.rcon)
    ensures r == Some(WDTO) <==> !s.wake.ds && NotPd(s.rcon) && NotTo(s.rcon)
  {
    var w := s.wake;
    if w.ds then
      if w.dsint0 then Some(DSWINT0)
      else if w.dswdt then Some(DSWDTO)
      else if w.dspor then Some(DSPOR)
      else None
    else
      if !NotPd(s.rcon) then Some(POR)
      else if NotTo(s.rcon) then Some(WDTO)
      else None
  }

  /** The same with the watchdog test as evidently intended: the
      active-low NOT_TO read as 0 is the time-out. */
  function ReasonIntended(s: State): (r: Option<WakeReason>)
    ensures r == Some(WDTO) <==> !s.wake.ds && NotPd(s.rcon) && !NotTo(s.rcon)
    ensures s.wake.ds || !NotPd(s.rcon) ==> r == ReasonAsWritten(s)
  {
    if !s.wake.ds && NotPd(s.rcon) then
      if !NotTo(s.rcon) then Some(WDTO) else None
    else ReasonAsWritten(s)
  }

  /** A watchdog time-out out of deep sleep: the as-written test leaves
      Result unassigned; the intended one names it. */
  lemma WatchdogTimeoutUnnamed()
    ensures var s := State(WakeFlags(false, false, false, false), 0x37, 0);
            && NotPd(s.rcon) && !NotTo(s.rcon)
            && ReasonAsWritten(s).None?
            && ReasonIntended(s) == Some(WDTO)
  {
  }

  /** PIC_Init from `LATB = PORTB` on, with the classification given by
      `reason`: RB1 is raised before it and lowered after it; the power-on
      reasons idle the RCON flags and clear LATB (ending the RB1 pulse
      early), the watchdog branch writes NOT_TO = 1. */
  function InitWith(s: State, portb: bv8, reason: Option<WakeReason>): (r: InitResult)
    ensures r.result == reason && r.state.wake == s.wake
    ensures reason == Some(POR) || reason == Some(DSPOR) ==>
              && r.latbWrites == [portb, RaiseRB1(portb), 0, 0]
              && r.state.rcon == IdleResetFlags(s.rcon) && r.state.latb == 0
    ensures !(reason == Some(POR) || reason == Some(DSPOR)) ==>
              && r.latbWrites == [portb, RaiseRB1(portb), LowerRB1(portb)]
              && r.state.rcon == (if reason == Some(WDTO) then s.rcon | NotToMask else s.rcon)
              && r.state.latb == LowerRB1(portb)
    ensures r.state.latb & RB1 == 0
  {
    var raised := RaiseRB1(portb);
    RaiseThenLower(portb);
    if reason == Some(POR) || reason == Some(DSPOR) then
      InitResult(reason, State(s.wake, IdleResetFlags(s.rcon), 0), [portb, raised, 0, 0])
    else
      var rcon := if reason == Some(WDTO) then s.rcon | NotToMask else s.rcon;
      var lowered := LowerRB1(raised);
      InitResult(reason, State(s.wake, rcon, lowered), [portb, raised, lowered])
  }

  /** `LATBbits.LATB1 = 1` */
  function RaiseRB1(x: bv8): bv8 { x | RB1 }

  /** `LATBbits.LATB1 = 0` */
  function LowerRB1(x: bv8): bv8 { x & !RB1 }

  /** Setting then clearing LATB1 leaves the other bits and RB1 low. */
  lemma RaiseThenLower(p: bv8)
    ensures LowerRB1(RaiseRB1(p)) == LowerRB1(p)
    ensures LowerRB1(p) & RB1 == 0 && LowerRB1(0) == 0
  {
  }

  function InitAsWritten(s: State, portb: bv8): InitResult
  {
    InitWith(s, portb, ReasonAsWritten(s))
  }

  /** main's switch on the byte PIC_Init returned: eDSWDTO toggles only
      RB2, eDSWINT0 only RB3, every other value nothing. */
  function Dispatch(resetType: uint8, latb: bv8): (r: bv8)
    ensures resetType == Ordinal(DSWDTO) ==> r == latb ^ RB2
    ensures resetType == Ordinal(DSWINT0) ==> r == latb ^ RB3
    ensures resetType != Ordinal(DSWDTO) && resetType != Ordinal(DSWINT0) ==> r == latb
  {
    if resetType == Ordinal(DSWDTO) then latb ^ RB2
    else if resetType == Ordinal(DSWINT0) then latb ^ RB3
    else latb
  }

  /** A wake from deep sleep by the watchdog or by INT0 toggles exactly
      its own pin and ends with RB1 low. */
  lemma DeepSleepWakeTogglesOwnPin(s: State, portb: bv8, stale: uint8)
    requires s.wake.ds && (s.wake.dsint0 || s.wake.dswdt)
    ensures var r := InitAsWritten(s, portb);
            var out := Dispatch(Ordinal(r.result.value), r.state.latb);
            && out & RB1 == 0
            && (s.wake.dsint0 ==> out == LowerRB1(portb) ^ RB3)
            && (!s.wake.dsint0 ==> out == LowerRB1(portb) ^ RB2)
  {
    var r := InitAsWritten(s, portb);
    assert r.state.latb == LowerRB1(portb);
  }

  /** The registers, and the log of LATB writes. */
  class Registers {
    var ds: bool
    var dsint0: bool
    var dswdt: bool
    var dspor: bool
    var rcon: bv8
    var latb: bv8
    var latbWrites: seq<bv8>

    function Snapshot(): State
      reads this
    {
      State(WakeFlags(ds, dsint0, dswdt, dspor), rcon, latb)
    }

    constructor (s: State)
      ensures Snapshot() == s && latbWrites == []
    {
      ds, dsint0, dswdt, dspor := s.wake.ds, s.wake.dsint0, s.wake.dswdt, s.wake.dspor;
      rcon, latb := s.rcon, s.latb;
      latbWrites := [];
    }

    method WriteLatb(v: bv8)
      modifies this
      ensures latb == v && latbWrites == old(latbWrites) + [v]
      ensures Snapshot() == old(Snapshot()).(latb := v)
    {
      latb := v;
      latbWrites := latbWrites + [v];
    }

    /** PIC_Init from `LATB = PORTB` to `return Result`. */
    method PicInit(portb: bv8) returns (result: Option<WakeReason>)
      modifies this
      ensures var r := InitAsWritten(old(Snapshot()), portb);
              result == r.result && Snapshot() == r.state && latbWrites == old(latbWrites) + r.latbWrites
    {
      ghost var s0 := Snapshot();
      result := PicInitSteps(portb);
      ghost var r := InitAsWritten(s0, portb);
      assert r.result == result;
    }

    /** The statements of PIC_Init in order, with their effect per branch. */
    method PicInitSteps(portb: bv8) returns (result: Option<WakeReason>)
      modifies this
      ensures result == ReasonAsWritten(old(Snapshot()))
      ensures result == Some(POR) || result == Some(DSPOR) ==>
                Snapshot() == old(Snapshot()).(rcon := IdleResetFlags(old(rcon)), latb := 0) &&
                latbWrites == old(latbWrites) + [portb, RaiseRB1(portb), 0, 0]
      ensures !(result == Some(POR) || result == Some(DSPOR)) ==>
                Snapshot() == old(Snapshot()).(rcon := if result == Some(WDTO) then old(rcon) | NotToMask else old(rcon), latb := LowerRB1(portb)) &&
                latbWrites == old(latbWrites) + [portb, RaiseRB1(portb), LowerRB1(portb)]
    {
      WriteLatb(portb);
      WriteLatb(RaiseRB1(latb));
      RaiseThenLower(portb);
      result := Classify();
      WriteLatb(LowerRB1(latb));
    }

    /** The if/else chain of PIC_Init. */
    method Classify() returns (result: Option<WakeReason>)
      modifies this
      ensures result == ReasonAsWritten(old(Snapshot()))
      ensures result == Some(POR) || result == Some(DSPOR) ==>
                Snapshot() == old(Snapshot()).(rcon := IdleResetFlags(old(rcon)), latb := 0) &&
                latbWrites == old(latbWrites) + [0]
      ensures !(result == Some(POR) || result == Some(DSPOR)) ==>
                Snapshot() == old(Snapshot()).(rcon := if result == Some(WDTO) then old(rcon) | NotToMask else old(rcon)) &&
                latbWrites == old(latbWrites)
    {
      result := None;
      if ds {
        if dsint0 {
          result := Some(DSWINT0);
        } else if dswdt {
          result := Some(DSWDTO);
        } else if dspor {
          result := Some(DSPOR);
          rcon := rcon | ResetFlagsMask;
          WriteLatb(0);
        }
      } else {
        if rcon & NotPdMask == 0 {
          result := Some(POR);
          rcon := rcon | ResetFlagsMask;
          WriteLatb(0);
        } else if rcon & NotToMask != 0 {
          result := Some(WDTO);
          rcon := rcon | NotToMask;
        }
      }
    }

    /** main's switch, with `stale` standing for an unassigned Result. */
    method RunMain(portb: bv8, stale: uint8)
      modifies this
      ensures var r := InitAsWritten(old(Snapshot()), portb);
              var resetType := if r.result.Some? then Ordinal(r.result.value) else stale;
              Snapshot() == r.state.(latb := Dispatch(resetType, r.state.latb))
    {
      var result := PicInit(portb);
      var resetType := if result.Some? then Ordinal(result.value) else stale;
      if resetType == Ordinal(DSWDTO) {
        latb := latb ^ RB2;
      } else if resetType == Ordinal(DSWINT0) {
        latb := latb ^ RB3;
      }
    }
  }
}
