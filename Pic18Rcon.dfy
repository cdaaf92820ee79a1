/** The PIC18F27J13 reset status both of its deep-sleep programs read:
    the deep-sleep wake flags (WDTCON.DS, DSWAKEH.DSINT0, DSWAKEL.DSWDT,
    DSWAKEL.DSPOR) and the RCON register, whose reset flags are active low
    (a 0 in NOT_TO reports a watchdog time-out, a 0 in NOT_PD a SLEEP
    instruction; 1 is the idle level). */
module Pic18Rcon {

  /** WDTCON.DS and the deep-sleep wake sources. */
  datatype WakeFlags = WakeFlags(ds: bool, dsint0: bool, dswdt: bool, dspor: bool)

  /** RCON bit 2, NOT_PD: set at power-up and cleared by SLEEP; the
      programs read NOT_PD = 0 as a power-on. */
  const NotPdMask: bv8 := 0x04

  /** RCON bit 3, NOT_TO: 0 after a watchdog time-out. */
  const NotToMask: bv8 := 0x08

  /** `RCON |= 0b00111111`: the six reset flags back at their idle level. */
  const ResetFlagsMask: bv8 := 0x3F

  predicate NotPd(rcon: bv8) { rcon & NotPdMask != 0 }

  predicate NotTo(rcon: bv8) { rcon & NotToMask != 0 }

  /** `RCON |= 0b00111111` sets the six flag bits (so NOT_PD and NOT_TO
      read idle) and keeps the top two bits. */
  function IdleResetFlags(rcon: bv8): (r: bv8)
    ensures r & ResetFlagsMask == ResetFlagsMask
    ensures r & 0xC0 == rcon & 0xC0
    ensures NotPd(r) && NotTo(r)
  {
    rcon | ResetFlagsMask
  }
}
