# PIC firmware logic, modelled and proved in Dafny

This project models the integer logic in a collection of small Microchip
PIC programs: register bring-up for PIC18, PIC24 and PIC32 parts, a polled
UART driver, an ultrasonic range capture, three deep-sleep demonstrations,
a PIC32 trainer board program and a CAN test-data template. Hardware
registers become fields of a class or fields of a record. The status bits
the programs poll become inputs.

The project has one module per program:

- `Uart` covers the PIC24F16KL401 UART driver, `uart.c`.
  - Generic_PutDec prints a 32-bit value as ten characters without dividing. The model is a method that works position by position, with compare-and-subtract as in the source, and emits the characters as a `seq<char>`.
  - Generic_PutHex, Generic_PutHexWord and Generic_PutString are modelled.
  - The U1_BRGREG and U2_BRGREG divisor macros are modelled.
  - The U1_* and U2_* wrappers are methods of a class whose fields are the two transmit logs.
- `PulseCapture` covers the PIC18F23K22 range finder.
  - A class holds the 16-slot `sensorData` array, the index and the TIMER3 gate bits.
  - The interrupt handler and `StartSensorCapture` are its methods. Each is proved against a specification function on a value snapshot.
- `Pic24DeepSleep` covers the wake classification shared by the PIC24FJ128GC010 and PIC24FJ64GB004 deep-sleep programs, with the DSGPR0/DSGPR1 wake counters.
- `Baud` covers the compile-time baud-rate macros of those two programs.
- `Pic18Rcon` holds the PIC18F27J13 reset-status bits that both of its deep-sleep programs read.
- `DeepSleepCounters` covers the PIC18F27J13 program in `18F27J13_deepsleep.X`, which counts its wakes.
- `DeepSleepReasons` covers the PIC18F27J13 program in `18F27J13_deepsleep.8`, which names its wake reasons in an enum.
- `Trainer` covers the PIC32MX795 trainer:
  - DelayMS;
  - buffered UART send and receive;
  - the receive-and-echo step;
  - the LED chase in `main`.
- `CanTemplate` covers the PIC18F25K80 CAN test-data table, its DLC field and the DLC-length copy.
- `Machine` holds the fixed-width integer types and `Option`.

The code and its own documentation disagree in one place, and the model follows the code. The doc comment of Generic_PutDec (uart.c:524) says "up to 5 decimal digits", but the routine always emits ten characters.

The PIC24 classification code is identical in the two PIC24 programs. It sits at 24FJ128GC010 main.c:377-400 and at 24FJ64GB004 main.c:341-364. The model is written once and cites both.

## Model

| member | source | states |
|---|---|---|
| Uart.DigitChar | PIC/24F/24F16KL401/24F16KL401_UART/24F16KL401_UART.X/uart.c:565-585 | `'0' + d` is a digit character whose value is d |
| Uart.AllBlankReadsZero | PIC/24F/24F16KL401/24F16KL401_UART/24F16KL401_UART.X/uart.c:541 | a field of blanks reads as 0 when a blank is read as a zero digit |
| Uart.BlankedZeroIsBlank | PIC/24F/24F16KL401/24F16KL401_UART/24F16KL401_UART.X/uart.c:559-563 | a blank-padded field (no '0' after a blank) that reads as 0 holds blanks only |
| Uart.BlankedUnique | PIC/24F/24F16KL401/24F16KL401_UART/24F16KL401_UART.X/uart.c:559-563 | a blank-padded field is determined by its length and its value, so the output format is unambiguous |
| Uart.PaddedUnique | PIC/24F/24F16KL401/24F16KL401_UART/24F16KL401_UART.X/uart.c:559-563 | the same for a padded field that ends in an always-printed units digit |
| Uart.Position | PIC/24F/24F16KL401/24F16KL401_UART/24F16KL401_UART.X/uart.c:565-585 | one compare-and-subtract position (8w, 4w, 2w, w) yields the digit and the remainder: x == digit·w + rest, with digit < 10 and rest < w |
| Uart.EmitPosition | PIC/24F/24F16KL401/24F16KL401_UART/24F16KL401_UART.X/uart.c:586-590 | a position prints its digit, or a blank while ZeroFlag is set and the digit is 0; the field stays blank-padded, ZeroFlag says whether it is all blank, and the value read grows by one digit |
| Uart.AppendDigit | PIC/24F/24F16KL401/24F16KL401_UART/24F16KL401_UART.X/uart.c:586-590 | a printed digit keeps the field blank-padded and makes it not all blank; the value read grows by that digit |
| Uart.AppendBlank | PIC/24F/24F16KL401/24F16KL401_UART/24F16KL401_UART.X/uart.c:586-590 | a blank printed while only zeros have been seen keeps the field all blank and reading 0 |
| Uart.PutDecHigh | PIC/24F/24F16KL401/24F16KL401_UART/24F16KL401_UART.X/uart.c:541-672 | the first five positions print the value divided by 100000 and leave the remainder below 100000 |
| Uart.PutDecLow | PIC/24F/24F16KL401/24F16KL401_UART/24F16KL401_UART.X/uart.c:679-782 | the last positions on the 16-bit Dec16 complete a ten-character padded field that reads as prefix·10000 + Dec16 |
| Uart.GenericPutDec | PIC/24F/24F16KL401/24F16KL401_UART/24F16KL401_UART.X/uart.c:530-784 | nothing for a null PutChar; otherwise exactly ten characters, blank-padded with a units digit; the field reads as Dec32 if and only if Dec32 mod 100000 lies outside [65536, 79999], and inside that window it reads as Dec32 − 65536 |
| Uart.GenericPutDecWide | PIC/24F/24F16KL401/24F16KL401_UART/24F16KL401_UART.X/uart.c:673-699 | with Dec16 kept wide, ten padded characters that read as Dec32 for every input |
| Uart.NarrowingCounterexample | PIC/24F/24F16KL401/24F16KL401_UART/24F16KL401_UART.X/uart.c:679 | Dec32 = 65536 prints as nine blanks then '0' |
| Uart.ZeroPrintsAsUnitsDigit | PIC/24F/24F16KL401/24F16KL401_UART/24F16KL401_UART.X/uart.c:782 | the value 0 prints as nine blanks then '0' |
| Uart.SixteenBitOutsideWindow | PIC/24F/24F16KL401/24F16KL401_UART/24F16KL401_UART.X/uart.c:231-237 | a 16-bit argument never falls in the narrowing window |
| Uart.HexCharTable | PIC/24F/24F16KL401/24F16KL401_UART/24F16KL401_UART.X/uart.c:803 | the table holds the sixteen upper-case digits in order |
| Uart.GenericPutHex | PIC/24F/24F16KL401/24F16KL401_UART/24F16KL401_UART.X/uart.c:798-809 | nothing for a null PutChar; otherwise two table characters, high nibble first, that read back as the byte |
| Uart.GenericPutHexWord | PIC/24F/24F16KL401/24F16KL401_UART/24F16KL401_UART.X/uart.c:812-819 | nothing for a null PutChar; otherwise the high byte's two digits then the low byte's, four characters that read back as the word |
| Uart.HexRoundTrip | PIC/24F/24F16KL401/24F16KL401_UART/24F16KL401_UART.X/uart.c:803-807 | every two-digit upper-case field is what Generic_PutHex prints for the value it reads as |
| Uart.HexDigitUnique | PIC/24F/24F16KL401/24F16KL401_UART/24F16KL401_UART.X/uart.c:803 | no two table digits have the same value |
| Uart.GenericPutString | PIC/24F/24F16KL401/24F16KL401_UART/24F16KL401_UART.X/uart.c:834-850 | nothing for a null buffer or PutChar; otherwise exactly the characters before the first NUL, in order |
| Uart.U1BrgReg | PIC/24F/24F16KL401/24F16KL401_UART/24F16KL401_UART.X/uart.c:27-31 | `(FCYC + d/1)/d − 1` is ⌊FCYC/d⌋; it is rejected exactly when that exceeds 65535 |
| Uart.U2BrgReg | PIC/24F/24F16KL401/24F16KL401_UART/24F16KL401_UART.X/uart.c:53-57 | `FCYC/d − 1` is the register in 0..65535 whose divisor reg + 1 brackets FCYC/d from below; it is rejected exactly when FCYC/d − 1 exceeds 65535 or when d exceeds FCYC, where the unsigned `- 1L` in the `#if` wraps |
| Uart.U1IsU2PlusOne | PIC/24F/24F16KL401/24F16KL401_UART/24F16KL401_UART.X/uart.c:27-57 | where both are accepted U1_BRGREG = U2_BRGREG + 1; only UART1 is refused exactly when FCYC/d = 65536; only UART2 is refused exactly when d exceeds FCYC, where U1_BRGREG is 0 and the unsigned U2_BRGREG wraps |
| Uart.SlowClockRefusesUart2 | PIC/24F/24F16KL401/24F16KL401_UART/24F16KL401_UART.X/uart.c:27-57 | at FCYC = 1 MHz, BRGH = 0 and 115200 baud the build accepts UART1 with register 0 and refuses UART2 |
| Uart.U1BrgRegRounded | PIC/24F/24F16KL401/24F16KL401_UART/24F16KL401_UART.X/uart.c:27 | the intended divisor: FCYC/d rounded to nearest, minus one, as BAUDRATEREG, in 0..65535, and rejected exactly when that exceeds 65535 or is negative (the unsigned `- 1L` wraps) |
| Uart.U1BrgRegOffByOne | PIC/24F/24F16KL401/24F16KL401_UART/24F16KL401_UART.X/uart.c:27 | for FCYC = 1 MHz, BRGH = 1 and 9600 baud the macro gives 26 (a 4 % error) where rounding gives 25 (0 %) |
| Uart.UartPorts.constructor | PIC/24F/24F16KL401/24F16KL401_UART/24F16KL401_UART.X/uart.c:90-123 | both transmit logs start empty |
| Uart.UartPorts.PutChar | PIC/24F/24F16KL401/24F16KL401_UART/24F16KL401_UART.X/uart.c:137-145 | U1_PutChar appends to UART1's log only, U2_PutChar to UART2's only |
| Uart.UartPorts.Emit | PIC/24F/24F16KL401/24F16KL401_UART/24F16KL401_UART.X/uart.c:356-364 | a sequence of PutChar calls appends the characters, in order, to the chosen UART only |
| Uart.UartPorts.U1PutDec | PIC/24F/24F16KL401/24F16KL401_UART/24F16KL401_UART.X/uart.c:231-237 | ten padded characters on UART1 that read as the 16-bit value, always exactly |
| Uart.UartPorts.U1PutDecLong | PIC/24F/24F16KL401/24F16KL401_UART/24F16KL401_UART.X/uart.c:239-245 | as written: UART1 untouched, ten padded characters on UART2, exact if and only if outside the narrowing window, and reading Dec32 − 65536 inside it |
| Uart.UartPorts.U1PutDecLongFixed | PIC/24F/24F16KL401/24F16KL401_UART/24F16KL401_UART.X/uart.c:239-245 | as intended: ten characters on UART1 that read as the value, for every 32-bit value |
| Uart.UartPorts.U1PutString | PIC/24F/24F16KL401/24F16KL401_UART/24F16KL401_UART.X/uart.c:260-266 | the string before its NUL on UART1; nothing for a null pointer |
| Uart.UartPorts.U1PutHex | PIC/24F/24F16KL401/24F16KL401_UART/24F16KL401_UART.X/uart.c:281-287 | two hex digits on UART1 |
| Uart.UartPorts.U1PutHexWord | PIC/24F/24F16KL401/24F16KL401_UART/24F16KL401_UART.X/uart.c:289-295 | as written: the four digits go to UART2 and UART1 is untouched |
| Uart.UartPorts.U1PutHexWordFixed | PIC/24F/24F16KL401/24F16KL401_UART/24F16KL401_UART.X/uart.c:289-295 | as intended: the four digits go to UART1 |
| Uart.UartPorts.U2PutDec | PIC/24F/24F16KL401/24F16KL401_UART/24F16KL401_UART.X/uart.c:450-456 | the widened 16-bit value: ten padded characters on UART2, always exact |
| Uart.UartPorts.U2PutDecLong | PIC/24F/24F16KL401/24F16KL401_UART/24F16KL401_UART.X/uart.c:458-464 | ten padded characters on UART2, exact if and only if outside the narrowing window, and reading Dec32 − 65536 inside it |
| Uart.UartPorts.U2PutString | PIC/24F/24F16KL401/24F16KL401_UART/24F16KL401_UART.X/uart.c:479-485 | the string before its NUL on UART2; nothing for a null pointer |
| Uart.UartPorts.U2PutHex | PIC/24F/24F16KL401/24F16KL401_UART/24F16KL401_UART.X/uart.c:500-506 | two hex digits on UART2 |
| Uart.UartPorts.U2PutHexWord | PIC/24F/24F16KL401/24F16KL401_UART/24F16KL401_UART.X/uart.c:508-514 | four hex digits on UART2 |
| PulseCapture.Distance | PIC/18F/18F23K22/18F23K22_spc/18F23K22_spc.X/main.c:115 | the stored distance is at most 255; it is 255 exactly when TMR3 ≥ 255·58, and otherwise ⌊TMR3/58⌋ (r·58 ≤ TMR3 < r·58 + 58) |
| PulseCapture.Handler | PIC/18F/18F23K22/18F23K22_spc/18F23K22_spc.X/main.c:82-129 | nothing changes unless TMR3GIE and TMR3GIF are both set; otherwise the flag is cleared, only slot polledSensor is written with the distance, and the index advances, or wraps to 0 and clears TMR3GIE; TMR3 = 0 and T3GGO is set |
| PulseCapture.Start | PIC/18F/18F23K22/18F23K22_spc/18F23K22_spc.X/main.c:205-213 | index and TMR3 to 0, capture enabled and armed, buffer untouched |
| PulseCapture.Run | PIC/18F/18F23K22/18F23K22_spc/18F23K22_spc.X/main.c:115-123 | a run of captures keeps the index inside the buffer |
| PulseCapture.CaptureFillsInOrder | PIC/18F/18F23K22/18F23K22_spc/18F23K22_spc.X/main.c:115-123 | after a start, the first 16 captures fill slots 0 to 15 in order with their distances, later ones change nothing, and capture is disabled exactly once 16 have arrived |
| PulseCapture.SensorCapture.Snapshot | PIC/18F/18F23K22/18F23K22_spc/18F23K22_spc.X/main.c:64-65 | the globals, read as a well-formed capture state |
| PulseCapture.SensorCapture.constructor | PIC/18F/18F23K22/18F23K22_spc/18F23K22_spc.X/main.c:64-65 | the globals at reset: a zeroed 16-slot buffer and index 0 |
| PulseCapture.SensorCapture.InterruptHandlerHigh | PIC/18F/18F23K22/18F23K22_spc/18F23K22_spc.X/main.c:82-129 | the in-place handler leaves exactly the state Handler specifies |
| PulseCapture.SensorCapture.StartSensorCapture | PIC/18F/18F23K22/18F23K22_spc/18F23K22_spc.X/main.c:205-213 | the in-place start leaves exactly the state Start specifies |
| Baud.BaudRateReg | PIC/24F/24FJ128GC010/24FJ128GC010_deepsleep/24FJ128GC010_deepsleep.X/main.c:99 | BAUDRATEREG + 1 is FCYC/(BRG_DIV·BAUDRATE) rounded to the nearest integer, halves up (the same macro is at 24FJ64GB004 main.c:84) |
| Baud.BaudActual | PIC/24F/24FJ128GC010/24FJ128GC010_deepsleep/24FJ128GC010_deepsleep.X/main.c:100 | the actual rate is FCYC/(BRG_DIV·(BRG + 1)) rounded down: rate·BRG_DIV·(BRG + 1) ≤ FCYC < (rate + 1)·BRG_DIV·(BRG + 1) |
| Baud.BaudError | PIC/24F/24FJ128GC010/24FJ128GC010_deepsleep/24FJ128GC010_deepsleep.X/main.c:102 | the absolute difference between the actual and the requested rate |
| Baud.BaudErrorPercent | PIC/24F/24FJ128GC010/24FJ128GC010_deepsleep/24FJ128GC010_deepsleep.X/main.c:103 | the error as a percentage of the rate, rounded to nearest, halves up |
| Baud.CheckBoundsError | PIC/24F/24FJ128GC010/24FJ128GC010_deepsleep/24FJ128GC010_deepsleep.X/main.c:105-109 | BaudCheck is the `#if` chain (a −1 register or a rounded error above 3 % refused, above 2 % warned); a configuration it does not refuse has a register ≥ 0 and an error below 3.5 %; one accepted without warning has an error below 2.5 % |
| Baud.DeepSleepConfigurationAccepted | PIC/24F/24FJ128GC010/24FJ128GC010_deepsleep/24FJ128GC010_deepsleep.X/main.c:85-109 | 16 MHz, divider 4 and 9600 baud give register 416, an actual rate of 9592 and 0 % |
| Pic24DeepSleep.Inc16 | PIC/24F/24FJ128GC010/24FJ128GC010_deepsleep/24FJ128GC010_deepsleep.X/main.c:391-392 | a 16-bit `DSGPRn + 1` wraps modulo 65536 |
| Pic24DeepSleep.ClassifyWake | PIC/24F/24FJ128GC010/24FJ128GC010_deepsleep/24FJ128GC010_deepsleep.X/main.c:377-401 | result in 0..3 with priority WDTO(3) > EXTR(2) > DPSLP(1) > POR(0), each as an iff; only the deciding flag is cleared; a deep-sleep wake counts DSWDT in DSGPR0 and INT0 in DSGPR1 independently; a power-on zeroes both counters; WDTO and EXTR keep them (the same code is at 24FJ64GB004 main.c:341-365) |
| Pic24DeepSleep.SleepEntry | PIC/24F/24FJ128GC010/24FJ128GC010_deepsleep/24FJ128GC010_deepsleep.X/main.c:470-471 | before deep sleep DPSLP and the DSWAKE flags are cleared; the other flags and the counters are kept (also 24FJ64GB004 main.c:408-409) |
| Pic24DeepSleep.Announce | PIC/24F/24FJ128GC010/24FJ128GC010_deepsleep/24FJ128GC010_deepsleep.X/main.c:436-453 | main reports exactly one message per reset type 0..3, the deep-sleep message carrying both counters, and none otherwise |
| Pic24DeepSleep.CountersCountWakes | PIC/24F/24FJ128GC010/24FJ128GC010_deepsleep/24FJ128GC010_deepsleep.X/main.c:387-393 | with no power-on in a history of boots, DSGPR0 and DSGPR1 grow by the number of DSWDT and INT0 deep-sleep wakes, modulo 2^16 |
| Pic24DeepSleep.WdtWakesCounted | PIC/24F/24FJ128GC010/24FJ128GC010_deepsleep/24FJ128GC010_deepsleep.X/main.c:391 | DSGPR0 alone: it grows by the DSWDT deep-sleep wakes, modulo 2^16 |
| Pic24DeepSleep.Int0WakesCounted | PIC/24F/24FJ128GC010/24FJ128GC010_deepsleep/24FJ128GC010_deepsleep.X/main.c:392 | DSGPR1 alone: it grows by the INT0 deep-sleep wakes, modulo 2^16 |
| Pic24DeepSleep.BootCounts | PIC/24F/24FJ128GC010/24FJ128GC010_deepsleep/24FJ128GC010_deepsleep.X/main.c:377-393 | one boot that is not a power-on adds one to DSGPR0 for a DSWDT deep-sleep wake and one to DSGPR1 for an INT0 one, modulo 2^16 |
| Pic24DeepSleep.ReplayAppend | PIC/24F/24FJ128GC010/24FJ128GC010_deepsleep/24FJ128GC010_deepsleep.X/main.c:377-400 | replaying a history in two parts is replaying it whole |
| Pic24DeepSleep.CountersSincePowerOn | PIC/24F/24FJ128GC010/24FJ128GC010_deepsleep/24FJ128GC010_deepsleep.X/main.c:391-399 | after the last power-on the counters hold exactly the wakes since then, whatever they held before |
| Pic24DeepSleep.Registers.constructor | PIC/24F/24FJ128GC010/24FJ128GC010_deepsleep/24FJ128GC010_deepsleep.X/main.c:377-400 | the registers hold a given state |
| Pic24DeepSleep.Registers.ClassifyReset | PIC/24F/24FJ128GC010/24FJ128GC010_deepsleep/24FJ128GC010_deepsleep.X/main.c:377-401 | the in-place if/else chain returns and leaves exactly what ClassifyWake specifies |
| Pic24DeepSleep.Registers.ClearWakeFlags | PIC/24F/24FJ128GC010/24FJ128GC010_deepsleep/24FJ128GC010_deepsleep.X/main.c:470-471 | the in-place clearing leaves exactly what SleepEntry specifies |
| Pic18Rcon.IdleResetFlags | PIC/18F/18F27J13/18F27J13_deepsleep.X/main.c:297 | `RCON \|= 0b00111111` sets the six flag bits (NOT_PD and NOT_TO read idle) and keeps the top two |
| DeepSleepCounters.Inc8 | PIC/18F/18F27J13/18F27J13_deepsleep.X/main.c:287 | an 8-bit `DSGPRn + 1` wraps modulo 256 |
| DeepSleepCounters.ResetAll | PIC/18F/18F27J13/18F27J13_deepsleep.X/main.c:296-300 | RCON flags idle, both counters and LATB zero, wake flags kept |
| DeepSleepCounters.ClassifyAsWritten | PIC/18F/18F27J13/18F27J13_deepsleep.X/main.c:281-320 | DS first, then INT0 or DSWDT gives 1, DSPOR gives 2; out of deep sleep NOT_PD = 0 gives 0 and NOT_TO reading 1 gives 3, each as an iff; Result is unassigned exactly for DS with no wake flag and for NOT_PD = 1, NOT_TO = 0; exactly one counter moves on result 1; 0 and 2 reset everything; 3 and unassigned change nothing |
| DeepSleepCounters.ClassifyIntended | PIC/18F/18F27J13/18F27J13_deepsleep.X/main.c:313-317 | with the active-low NOT_TO tested for 0, result 3 is chosen exactly on a watchdog time-out and NOT_TO is written back idle |
| DeepSleepCounters.IntendedDiffersOnlyOnWatchdog | PIC/18F/18F27J13/18F27J13_deepsleep.X/main.c:281-320 | the two classifications agree except out of deep sleep with NOT_PD = 1, where only the NOT_TO test differs |
| DeepSleepCounters.WatchdogResetUnclassified | PIC/18F/18F27J13/18F27J13_deepsleep.X/main.c:313 | RCON = 0x37 (a watchdog time-out): as written, Result is unassigned; as intended, it is 3 |
| DeepSleepCounters.Dispatch | PIC/18F/18F27J13/18F27J13_deepsleep.X/main.c:332-345 | only bit 0 of LATB can change, and it toggles exactly for result 1 |
| DeepSleepCounters.WakesCounted | PIC/18F/18F27J13/18F27J13_deepsleep.X/main.c:282-293 | over a run of INT0 and DSWDT wakes, DSGPR1 counts the INT0 wakes and DSGPR0 the DSWDT wakes, modulo 256 |
| DeepSleepCounters.WakesToggleRB0 | PIC/18F/18F27J13/18F27J13_deepsleep.X/main.c:337 | over such a run, RB0 is toggled once per wake |
| DeepSleepCounters.WakeStep | PIC/18F/18F27J13/18F27J13_deepsleep.X/main.c:282-293 | one INT0 or DSWDT wake moves exactly one counter and toggles RB0 |
| DeepSleepCounters.Registers.constructor | PIC/18F/18F27J13/18F27J13_deepsleep.X/main.c:118-120 | the registers hold a given state |
| DeepSleepCounters.Registers.PicInit | PIC/18F/18F27J13/18F27J13_deepsleep.X/main.c:257-320 | LATB loaded from PORTB, then the in-place branches return and leave exactly what ClassifyAsWritten specifies |
| DeepSleepCounters.Registers.RunMain | PIC/18F/18F27J13/18F27J13_deepsleep.X/main.c:325-345 | PIC_Init then the switch, with an unassigned Result standing for an arbitrary byte |
| DeepSleepReasons.Ordinal | PIC/18F/18F27J13/18F27J13_deepsleep.8/main.c:70 | the five enumerators are 0 to 4 in declaration order, each value naming exactly one enumerator |
| DeepSleepReasons.ReasonAsWritten | PIC/18F/18F27J13/18F27J13_deepsleep.8/main.c:290-320 | in deep sleep INT0 > DSWDT > DSPOR; out of it NOT_PD = 0 is ePOR and NOT_TO reading 1 is eWDTO, each as an iff; no other start-up assigns Result |
| DeepSleepReasons.ReasonIntended | PIC/18F/18F27J13/18F27J13_deepsleep.8/main.c:315-319 | with NOT_TO tested for 0, eWDTO is chosen exactly on a watchdog time-out; every other start-up is classified as written |
| DeepSleepReasons.WatchdogTimeoutUnnamed | PIC/18F/18F27J13/18F27J13_deepsleep.8/main.c:315 | RCON = 0x37: as written, Result is unassigned; as intended, it is eWDTO |
| DeepSleepReasons.InitWith | PIC/18F/18F27J13/18F27J13_deepsleep.8/main.c:209-323 | LATB is written PORTB, then with RB1 raised, then (for the power-on reasons) 0, and finally with RB1 lowered; the power-on reasons idle RCON and clear LATB, eWDTO writes NOT_TO = 1, and RB1 always ends low |
| DeepSleepReasons.RaiseThenLower | PIC/18F/18F27J13/18F27J13_deepsleep.8/main.c:220-322 | raising then lowering RB1 leaves the other pins as they were and RB1 low |
| DeepSleepReasons.Dispatch | PIC/18F/18F27J13/18F27J13_deepsleep.8/main.c:335-351 | eDSWDTO toggles only RB2, eDSWINT0 only RB3, every other value nothing |
| DeepSleepReasons.DeepSleepWakeTogglesOwnPin | PIC/18F/18F27J13/18F27J13_deepsleep.8/main.c:290-351 | a watchdog or INT0 wake from deep sleep toggles exactly its own pin and ends with RB1 low |
| DeepSleepReasons.Registers.constructor | PIC/18F/18F27J13/18F27J13_deepsleep.8/main.c:122-124 | the registers hold a given state; no LATB write yet |
| DeepSleepReasons.Registers.WriteLatb | PIC/18F/18F27J13/18F27J13_deepsleep.8/main.c:209 | a LATB write sets LATB and is logged |
| DeepSleepReasons.Registers.PicInit | PIC/18F/18F27J13/18F27J13_deepsleep.8/main.c:209-323 | the in-place PIC_Init returns, leaves and writes exactly what InitWith specifies for the as-written reason |
| DeepSleepReasons.Registers.PicInitSteps | PIC/18F/18F27J13/18F27J13_deepsleep.8/main.c:209-323 | the statements in order, with their effect per branch |
| DeepSleepReasons.Registers.Classify | PIC/18F/18F27J13/18F27J13_deepsleep.8/main.c:290-320 | the in-place if/else chain returns ReasonAsWritten and changes only RCON and LATB, per branch |
| DeepSleepReasons.Registers.RunMain | PIC/18F/18F27J13/18F27J13_deepsleep.8/main.c:328-351 | PIC_Init then the switch |
| Trainer.PeripheralClock | PIC/32F/32MX795F512L/Trainer/pic32mx795-trainer.X/main.c:47-48 | the 8 MHz system clock divided by 2^PBDIV, exactly, between 1 and 8 MHz |
| Trainer.DelayTarget | PIC/32F/32MX795F512L/Trainer/pic32mx795-trainer.X/main.c:61-64 | Delay·8000 without overflow when Delay < 0xFFFFFFFF/8000, else 0xFFFFFFFF; never shorter than asked unless the request exceeds 32 bits |
| Trainer.Elapsed | PIC/32F/32MX795F512L/Trainer/pic32mx795-trainer.X/main.c:69 | `Time1 − Time0` is the tick count from Time0 forward to Time1 modulo 2^32 |
| Trainer.ElapsedMeasuresSpan | PIC/32F/32MX795F512L/Trainer/pic32mx795-trainer.X/main.c:68-71 | any span shorter than a full counter turn is measured exactly, across a wrap-around |
| Trainer.DelayMS | PIC/32F/32MX795F512L/Trainer/pic32mx795-trainer.X/main.c:55-73 | the spin loop leaves at the first reading whose elapsed count reaches the target, and at no earlier one |
| Trainer.LineLength | PIC/32F/32MX795F512L/Trainer/pic32mx795-trainer.X/main.c:108-131 | the stored line is at most max_size long and holds no '\r'; when shorter, the queue ended or a '\r' follows |
| Trainer.LineConsumed | PIC/32F/32MX795F512L/Trainer/pic32mx795-trainer.X/main.c:125-126 | a line cut short before max_size by a '\r' consumes that '\r' as well (k = n + 1) without storing it; a line ended by max_size or by the end of the queue consumes exactly the n stored bytes |
| Trainer.ChaseStep | PIC/32F/32MX795F512L/Trainer/pic32mx795-trainer.X/main.c:212-214 | the result never exceeds 0x80; `rTemp << 1` up to 0x40 and back to 1 above it, for every rTemp below 2^31 (above that the 32-bit shift wraps, which the chase never reaches) |
| Trainer.ChaseCycles | PIC/32F/32MX795F512L/Trainer/pic32mx795-trainer.X/main.c:212-214 | the lit bit walks 1, 2, 4, …, 0x80 and back to 1 |
| Trainer.ChaseKeepsOneBit | PIC/32F/32MX795F512L/Trainer/pic32mx795-trainer.X/main.c:200-216 | after m moves of ChaseRun (the passes of the loop, each a ChasePass) rTemp is the single bit m mod 8; LATE is 0 and Time0 the starting reading before the first move, and LATE is the single bit (m − 1) mod 8 after it |
| Trainer.ChaseTime0IsLastMove | PIC/32F/32MX795F512L/Trainer/pic32mx795-trainer.X/main.c:205-215 | after at least one move, Time0 is the Time1 reading of the pass that made the latest move, so the half second is counted from it |
| Trainer.MoveKeepsOneBit | PIC/32F/32MX795F512L/Trainer/pic32mx795-trainer.X/main.c:200-216 | one move turns the lit bit m mod 8 into bit (m + 1) mod 8 and leaves the old bit in LATE |
| Trainer.LedChase | PIC/32F/32MX795F512L/Trainer/pic32mx795-trainer.X/main.c:200-216 | the loop leaves LATE and rTemp as ChaseRun says, where ChasePass is one pass: it moves on an echo or once Time1 − Time0 reaches half a second, stepping rTemp into LATE and taking Time1 as Time0 |
| Trainer.SerialPort.constructor | PIC/32F/32MX795F512L/Trainer/pic32mx795-trainer.X/main.c:182-186 | a port with the given incoming bytes and nothing sent |
| Trainer.SerialPort.SendDataBuffer | PIC/32F/32MX795F512L/Trainer/pic32mx795-trainer.X/main.c:78-93 | exactly size bytes, buffer[0..size), are sent in order |
| Trainer.SerialPort.GetDataBuffer | PIC/32F/32MX795F512L/Trainer/pic32mx795-trainer.X/main.c:102-135 | returns LineLength bytes, stores them in order at the front of the buffer and nothing after them, and consumes them and the ending '\r' |
| Trainer.SerialPort.EchoRxTx | PIC/32F/32MX795F512L/Trainer/pic32mx795-trainer.X/main.c:138-154 | 1 exactly when a byte was waiting; that byte is taken and echoed only if the transmitter is ready |
| CanTemplate.Cell | PIC/18F/18F25K80/18F25K80_template/18F25K80_template.8/main.c:140 | `(y<<4)+x` in an unsigned char is 16·y + x ≤ 45, with y in the high nibble and x in the low |
| CanTemplate.Dlc | PIC/18F/18F25K80/18F25K80_template/18F25K80_template.8/main.c:117-125 | the DLC field is the low nibble of the DLC byte |
| CanTemplate.WithDlc | PIC/18F/18F25K80/18F25K80_template/18F25K80_template.8/main.c:117-125 | writing the DLC field sets the low nibble and keeps the high one |
| CanTemplate.TxDataInit | PIC/18F/18F25K80/18F25K80_template/18F25K80_template.8/main.c:132-143 | every cell TxData[y][x] holds 16·y + x, and only the table is written |
| CanTemplate.SetDlc | PIC/18F/18F25K80/18F25K80_template/18F25K80_template.8/main.c:168 | only the DLC byte of one message changes, and only its low nibble |
| CanTemplate.SetNextDlc | PIC/18F/18F25K80/18F25K80_template/18F25K80_template.8/main.c:168-170 | setting DLC = 8 in the next message keeps the table in its expected form |
| CanTemplate.DlcByte | PIC/18F/18F25K80/18F25K80_template/18F25K80_template.8/main.c:168-170 | a filled DLC byte with DLC = 8 reads 16·y + 8 |
| CanTemplate.SetUpTestData | PIC/18F/18F25K80/18F25K80_template/18F25K80_template.8/main.c:167-170 | after set-up every message has DLC = 8 and all other cells hold the counting pattern |
| CanTemplate.CopyData | PIC/18F/18F25K80/18F25K80_template/18F25K80_template.8/main.c:179 | memcpy copies exactly DLC data bytes into the buffer's Data and leaves its other bytes unchanged |
| CanTemplate.SendPass | PIC/18F/18F25K80/18F25K80_template/18F25K80_template.8/main.c:176-184 | after one pass the buffer's Data holds the third message's bytes 0x26 to 0x2D and its first six bytes are untouched |

## Left out

- Register bring-up is not modelled: configuration words, pin mapping, oscillator switching, PLL and clock-switch waits, pull-ups and analog selects. These are fixed register writes with no logic.
- The deep-sleep entry sequences (`disi`, `bset DSCON`, `pwrsav`, `Sleep()`) and the RB1 toggle that marks a failed deep-sleep entry (18F27J13_deepsleep.X main.c:363, 18F27J13_deepsleep.8 main.c:386) are left out. They are silicon behaviour.
- Busy-waits on hardware status bits (TRMT, URXDA, transmitter ready, transmission complete) and the overrun clearing in the receive routines are left out. A waiting loop is taken to end; in `EchoRxTx` the transmitter status is an input.
- `printf`, `sprintf` and the PIC32 peripheral-library calls are foreign code. The message main prints is modelled as a `Report` value; the text itself is not.
- In the trainer, the greeting claims 57600 baud while BAUD_RATE is 56000; that text is not modelled.
- The cycle-counted `delay()` routines and the U1/U2 GetChar/HasData/Init routines of `uart.c` are left out. They are register pokes and polling.
- The pulse-capture program is modelled as sequential steps. The interplay of the interrupt with the main loop (the volatile index, `while(PIE3bits.TMR3GIE)`) is not modelled, and `triggerSensor` is an empty stub.
- The timer count at the end of a gated pulse is an input (`Pulse`), and `sensorData` holds `int` values.
- `LATB = PORTB` reads the pins frozen through deep sleep. The model takes PORTB as a parameter.
- RCON's NOT_TO and NOT_PD are hardware-set bits. The model treats RCON as a plain byte that the code writes.
- An unassigned `Result` in the PIC18 programs is `None`. main's switch then sees an arbitrary byte, the `stale` parameter.
- The CAN `memcpy` destination is the TXB0 register block. The model takes it as a 14-byte array of the CanBuffer layout; the CAN transmission itself is not modelled.
- Trainer.SerialPort.GetDataBuffer: when the receive queue runs dry the source keeps waiting. The model stops and reports `starved`, so a line that never ends is not modelled.
- Trainer.DelayMS and Trainer.LedChase run over a finite sequence of timer readings. The source loops forever; the model does not capture timing between readings.
- Uart.GenericPutString requires a NUL somewhere in the buffer, which the source assumes and does not check.
- CanTemplate.CopyData requires DLC ≤ 8, the size of the Data field. main always sets DLC to 8; a DLC of 9 to 15 would make memcpy overrun both buffers.
- Uart.SixteenBitOutsideWindow, Uart.HexDigitUnique, DeepSleepCounters.IntendedDiffersOnlyOnWatchdog, DeepSleepCounters.WatchdogResetUnclassified and DeepSleepReasons.WatchdogTimeoutUnnamed hold without a proof body. They are kept as statements of the source's behaviour.

## Findings

| source | as written | input that shows it | evidently intended | confidence | as-written member | corrected member |
|---|---|---|---|---|---|---|
| PIC/24F/24F16KL401/24F16KL401_UART/24F16KL401_UART.X/uart.c:679 | `Dec16 = Dec32` narrows a remainder up to 99999 to 16 bits | Dec32 = 65536 prints nine blanks then '0' | the last five positions print Dec32 mod 100000 | high (not executed) | Uart.GenericPutDec, Uart.NarrowingCounterexample | Uart.GenericPutDecWide |
| PIC/24F/24F16KL401/24F16KL401_UART/24F16KL401_UART.X/uart.c:244 | U1_PutDecLong calls Generic_PutDec with `&U2_PutChar` | any value: UART1 gets nothing, UART2 gets ten characters | the digits go to UART1 | high (not executed) | Uart.UartPorts.U1PutDecLong | Uart.UartPorts.U1PutDecLongFixed |
| PIC/24F/24F16KL401/24F16KL401_UART/24F16KL401_UART.X/uart.c:294 | U1_PutHexWord calls Generic_PutHexWord with `&U2_PutChar` | any value: the four digits appear on UART2 | the digits go to UART1 | high (not executed) | Uart.UartPorts.U1PutHexWord | Uart.UartPorts.U1PutHexWordFixed |
| PIC/24F/24F16KL401/24F16KL401_UART/24F16KL401_UART.X/uart.c:27 | `(FCYC + d/1)/d − 1` adds d instead of d/2, giving ⌊FCYC/d⌋ rather than round(FCYC/d) − 1 | FCYC = 1 MHz, BRGH = 1, 9600 baud: 26, a 4 % baud error, where 25 gives 0 % | rounded to nearest, then minus one | medium (not executed) | Uart.U1BrgReg, Uart.U1BrgRegOffByOne | Uart.U1BrgRegRounded |
| PIC/18F/18F27J13/18F27J13_deepsleep.X/main.c:313 | `else if (RCONbits.NOT_TO)` takes the idle 1 of an active-low flag as a watchdog reset | RCON = 0x37 (NOT_PD = 1, NOT_TO = 0) after a watchdog time-out leaves Result unassigned | NOT_TO = 0 gives result 3 | medium (not executed) | DeepSleepCounters.ClassifyAsWritten, DeepSleepCounters.WatchdogResetUnclassified | DeepSleepCounters.ClassifyIntended |
| PIC/18F/18F27J13/18F27J13_deepsleep.8/main.c:315 | the same inverted test of NOT_TO | RCON = 0x37 leaves Result unassigned | NOT_TO = 0 gives eWDTO | medium (not executed) | DeepSleepReasons.ReasonAsWritten, DeepSleepReasons.WatchdogTimeoutUnnamed | DeepSleepReasons.ReasonIntended |
