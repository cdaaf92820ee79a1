/** The reset and wake classification at the end of PIC_init in the two
    PIC24 deep-sleep programs (PIC24FJ128GC010 and PIC24FJ64GB004, whose
    classification code is the same): the RCON reset flags are tested in a
    fixed priority, the deciding flag is cleared, and the two deep-sleep
    general purpose registers DSGPR0/DSGPR1, which keep their contents
    through deep sleep, count watchdog and INT0 wakes since the last
    power-on. */
module Pic24DeepSleep {
  import opened Machine

  /** The status bits PIC_init reads: RCON.WDTO, RCON.EXTR, RCON.DPSLP,
      RCON.POR and DSWAKE.DSWDT, DSWAKE.DSINT0. */
  datatype Flags = Flags(wdto: bool, extr: bool, dpslp: bool, por: bool, dswdt: bool, dsint0: bool)

  /** The flags and the two 16-bit retained counters. */
  datatype WakeState = WakeState(flags: Flags, dsgpr0: uint16, dsgpr1: uint16)

  /** PIC_init's return value and the state it leaves behind. */
  datatype Classification = Classification(result: int, state: WakeState)

  /** `DSGPRn = DSGPRn + 1` on a 16-bit register. */
  function Inc16(x: uint16): (y: uint16)
    ensures y == (x + 1) % 0x1_0000
  {
    if x == 0xFFFF then 0 else x + 1
  }

  /** The classification: WDTO gives 3, else EXTR gives 2, else DPSLP gives
      1, else 0 (taken as a power-on reset). Only the flag that decided is
      cleared. A deep-sleep wake counts a DSWDT wake in DSGPR0 and an INT0
      wake in DSGPR1, independently; a power-on zeroes both counters; the
      watchdog and MCLR branches leave them alone. */
  function ClassifyWake(s: WakeState): (r: Classification)
    ensures 0 <= r.result <= 3
    ensures r.result == 3 <==> s.flags.wdto
    ensures r.result == 2 <==> !s.flags.wdto && s.flags.extr
    ensures r.result == 1 <==> !s.flags.wdto && !s.flags.extr && s.flags.dpslp
    ensures r.result == 3 ==> r.state.flags == s.flags.(wdto := false)
    ensures r.result == 2 ==> r.state.flags == s.flags.(extr := false)
    ensures r.result == 1 ==> r.state.flags == s.flags.(dpslp := false)
    ensures r.result == 0 ==> r.state.flags == s.flags.(por := false)
    ensures r.result >= 2 ==> r.state.dsgpr0 == s.dsgpr0 && r.state.dsgpr1 == s.dsgpr1
    ensures r.result == 1 ==>
              && r.state.dsgpr0 == (s.dsgpr0 + (if s.flags.dswdt then 1 else 0)) % 0x1_0000
              && r.state.dsgpr1 == (s.dsgpr1 + (if s.flags.dsint0 then 1 else 0)) % 0x1_0000
    ensures r.result == 0 ==> r.state.dsgpr0 == 0 && r.state.dsgpr1 == 0
  {
    var f := s.flags;
    if f.wdto then
      Classification(3, s.(flags := f.(wdto := false)))
    else if f.extr then
      Classification(2, s.(flags := f.(extr := false)))
    else if f.dpslp then
      var g0 := if f.dswdt then Inc16(s.dsgpr0) else s.dsgpr0;
      var g1 := if f.dsint0 then Inc16(s.dsgpr1) else s.dsgpr1;
      Classification(1, WakeState(f.(dpslp := false), g0, g1))
    else
      Classification(0, WakeState(f.(por := false), 0, 0))
  }

  /** What main does just before deep sleep: RCON.DPSLP and every DSWAKE
      flag are cleared, so the next wake reports only its own cause. */
  function SleepEntry(s: WakeState): (s': WakeState)
    ensures !s'.flags.dpslp && !s'.flags.dswdt && !s'.flags.dsint0
    ensures s'.flags.wdto == s.flags.wdto && s'.flags.extr == s.flags.extr && s'.flags.por == s.flags.por
    ensures s'.dsgpr0 == s.dsgpr0 && s'.dsgpr1 == s.dsgpr1
  {
    s.(flags := s.flags.(dpslp := false, dswdt := false, dsint0 := false))
  }

  /** The line main prints for each reset type; no other type exists. */
  datatype Report = PowerOnHello | DeepSleepWake(dswdtWakes: uint16, int0Wakes: uint16) | McLrWake | WdtReset

  function Announce(c: Classification): (m: Option<Report>)
    ensures 0 <= c.result <= 3 <==> m.Some?
    ensures m == Some(PowerOnHello) <==> c.result == 0
    ensures m.Some? && m.value.DeepSleepWake? <==> c.result == 1
    ensures c.result == 1 ==> m == Some(DeepSleepWake(c.state.dsgpr0, c.state.dsgpr1))
    ensures m == Some(McLrWake) <==> c.result == 2
    ensures m == Some(WdtReset) <==> c.result == 3
  {
    if c.result == 0 then Some(PowerOnHello)
    else if c.result == 1 then Some(DeepSleepWake(c.state.dsgpr0, c.state.dsgpr1))
    else if c.result == 2 then Some(McLrWake)
    else if c.result == 3 then Some(WdtReset)
    else None
  }

  // ---------------------------------------------------------------------
  // The counters over a history of resets

  /** The branch taken for a set of flags. */
  predicate IsPowerOn(f: Flags) { !f.wdto && !f.extr && !f.dpslp }
  predicate IsDeepSleepWake(f: Flags) { !f.wdto && !f.extr && f.dpslp }

  /** One boot: the counters kept from before, the flags of this reset. */
  function Boot(prev: WakeState, f: Flags): WakeState
  {
    ClassifyWake(WakeState(f, prev.dsgpr0, prev.dsgpr1)).state
  }

  /** A history of boots, oldest first. */
  function Replay(s: WakeState, history: seq<Flags>): WakeState
  {
    if history == [] then s else Boot(Replay(s, history[..|history| - 1]), history[|history| - 1])
  }

  /** The number of deep-sleep wakes in a history that had the DSWDT
      (respectively INT0) wake flag set. */
  function WdtWakes(history: seq<Flags>): nat
  {
    if history == [] then 0
    else
      var f := history[|history| - 1];
      WdtWakes(history[..|history| - 1]) + (if IsDeepSleepWake(f) && f.dswdt then 1 else 0)
  }

  function Int0Wakes(history: seq<Flags>): nat
  {
    if history == [] then 0
    else
      var f := history[|history| - 1];
      Int0Wakes(history[..|history| - 1]) + (if IsDeepSleepWake(f) && f.dsint0 then 1 else 0)
  }

  /** With no power-on in the history, the counters grow by the number of
      DSWDT and INT0 deep-sleep wakes, modulo 2^16. */
  lemma CountersCountWakes(s: WakeState, history: seq<Flags>)
    requires forall i :: 0 <= i < |history| ==> !IsPowerOn(history[i])
    ensures Replay(s, history).dsgpr0 == (s.dsgpr0 + WdtWakes(history)) % 0x1_0000
    ensures Replay(s, history).dsgpr1 == (s.dsgpr1 + Int0Wakes(history)) % 0x1_0000
  {
    WdtWakesCounted(s, history);
    Int0WakesCounted(s, history);
  }

  lemma {:induction false} WdtWakesCounted(s: WakeState, history: seq<Flags>)
    requires forall i :: 0 <= i < |history| ==> !IsPowerOn(history[i])
    ensures Replay(s, history).dsgpr0 == (s.dsgpr0 + WdtWakes(history)) % 0x1_0000
  {
    if history != [] {
      var n := |history|;
      var p, f := history[..n - 1], history[n - 1];
      assert forall i :: 0 <= i < |p| ==> p[i] == history[i];
      WdtWakesCounted(s, p);
      BootCounts(Replay(s, p), f);
      ModAdd(s.dsgpr0, WdtWakes(p), if IsDeepSleepWake(f) && f.dswdt then 1 else 0);
    }
  }

  lemma {:induction false} Int0WakesCounted(s: WakeState, history: seq<Flags>)
    requires forall i :: 0 <= i < |history| ==> !IsPowerOn(history[i])
    ensures Replay(s, history).dsgpr1 == (s.dsgpr1 + Int0Wakes(history)) % 0x1_0000
  {
    if history != [] {
      var n := |history|;
      var p, f := history[..n - 1], history[n - 1];
      assert forall i :: 0 <= i < |p| ==> p[i] == history[i];
      Int0WakesCounted(s, p);
      BootCounts(Replay(s, p), f);
      ModAdd(s.dsgpr1, Int0Wakes(p), if IsDeepSleepWake(f) && f.dsint0 then 1 else 0);
    }
  }

  /** One boot that is not a power-on adds its DSWDT and INT0 wakes. */
  lemma BootCounts(prev: WakeState, f: Flags)
    requires !IsPowerOn(f)
    ensures Boot(prev, f).dsgpr0 == (prev.dsgpr0 + (if IsDeepSleepWake(f) && f.dswdt then 1 else 0)) % 0x1_0000
    ensures Boot(prev, f).dsgpr1 == (prev.dsgpr1 + (if IsDeepSleepWake(f) && f.dsint0 then 1 else 0)) % 0x1_0000
  {
  }

  /** Adding after the 16-bit wrap is adding before it. */
  lemma ModAdd(a: nat, k: nat, c: nat)
    ensures ((a + k) % 0x1_0000 + c) % 0x1_0000 == (a + k + c) % 0x1_0000
  {
  }

  lemma {:induction false} ReplayAppend(s: WakeState, a: seq<Flags>, b: seq<Flags>)
    ensures Replay(s, a + b) == Replay(Replay(s, a), b)
  {
    if b != [] {
      var n := |b|;
      assert (a + b)[..|a + b| - 1] == a + b[..n - 1];
      ReplayAppend(s, a, b[..n - 1]);
    } else {
      assert a + b == a;
    }
  }

  /** After the last power-on, the counters hold exactly the number of
      DSWDT and INT0 deep-sleep wakes since then, modulo 2^16, whatever
      they held before. */
  lemma CountersSincePowerOn(s: WakeState, history: seq<Flags>, i: nat)
    requires i < |history| && IsPowerOn(history[i])
    requires forall j :: i < j < |history| ==> !IsPowerOn(history[j])
    ensures Replay(s, history).dsgpr0 == WdtWakes(history[i + 1..]) % 0x1_0000
    ensures Replay(s, history).dsgpr1 == Int0Wakes(history[i + 1..]) % 0x1_0000
  {
    var head, tail := history[..i + 1], history[i + 1..];
    assert history == head + tail;
    ReplayAppend(s, head, tail);
    assert head[..i] == history[..i];
    var z := Replay(s, head);
    assert z.dsgpr0 == 0 && z.dsgpr1 == 0;
    CountersCountWakes(z, tail);
  }

  // ---------------------------------------------------------------------
  // The registers

  /** RCON, DSWAKE and the deep-sleep general purpose registers. */
  class Registers {
    var wdto: bool
    var extr: bool
    var dpslp: bool
    var por: bool
    var dswdt: bool
    var dsint0: bool
    var dsgpr0: uint16
    var dsgpr1: uint16

    function State(): WakeState
      reads this
    {
      WakeState(Flags(wdto, extr, dpslp, por, dswdt, dsint0), dsgpr0, dsgpr1)
    }

    constructor (s: WakeState)
      ensures State() == s
    {
      wdto, extr, dpslp, por := s.flags.wdto, s.flags.extr, s.flags.dpslp, s.flags.por;
      dswdt, dsint0 := s.flags.dswdt, s.flags.dsint0;
      dsgpr0, dsgpr1 := s.dsgpr0, s.dsgpr1;
    }

    /** The classification tail of PIC_init. */
    method ClassifyReset() returns (result: int)
      modifies this
      ensures Classification(result, State()) == ClassifyWake(old(State()))
    {
      if wdto {
        result := 3;
        wdto := false;
      } else if extr {
        result := 2;
        extr := false;
      } else if dpslp {
        result := 1;
        dpslp := false;
        if dswdt { dsgpr0 := Inc16(dsgpr0); }
        if dsint0 { dsgpr1 := Inc16(dsgpr1); }
      } else {
        result := 0;
        por := false;
        dsgpr0 := 0;
        dsgpr1 := 0;
      }
    }

    /** `RCONbits.DPSLP = 0; DSWAKE = 0;` before the deep-sleep entry. */
    method ClearWakeFlags()
      modifies this
      ensures State() == SleepEntry(old(State()))
    {
      dpslp := false;
      dswdt, dsint0 := false, false;
    }
  }
}
