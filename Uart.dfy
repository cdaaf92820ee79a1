/** The polled UART driver of the PIC24F16KL401 (uart.c): fixed-width
    decimal and hexadecimal output without division, ASCIIZ strings, the
    per-channel wrappers and the U1BRG/U2BRG divisor macros.

    The Generic_* routines emit through a PutChar function pointer; here
    they return the characters they would emit, in order, and the channel
    wrappers of class UartPorts append them to that channel's transmit log
    (PutChar as an append). */
module Uart {
  import opened Machine
  import Baud

  /** The PutChar pointer handed to the Generic_* routines. */
  datatype PutCharFn = NullPutChar | U1PutChar | U2PutChar

  // ---------------------------------------------------------------------
  // Decimal fields: blanks, digits, and how to read them back

  predicate IsDigit(c: char) { '0' <= c <= '9' }

  function DigitChar(d: nat): (c: char)
    requires d < 10
    ensures IsDigit(c) && CharValue(c) == d
  {
    ('0' as int + d) as char
  }

  /** The value of one position of a decimal field; a blank counts as 0. */
  function CharValue(c: char): nat
  {
    if IsDigit(c) then c as int - '0' as int else 0
  }

  /** Reads a field of blanks and digits as a decimal number. */
  function ReadDecimal(s: seq<char>): nat
  {
    if s == [] then 0 else ReadDecimal(s[..|s| - 1]) * 10 + CharValue(s[|s| - 1])
  }

  predicate AllBlank(s: seq<char>)
  {
    forall i :: 0 <= i < |s| ==> s[i] == ' '
  }

  /** Leading blanks then digits, where no '0' follows a blank: zeros in
      front of the first significant digit are printed as blanks. */
  predicate Blanked(s: seq<char>)
  {
    && (forall i :: 0 <= i < |s| ==> s[i] == ' ' || IsDigit(s[i]))
    && (forall i, j :: 0 <= i < j < |s| && s[i] != ' ' ==> s[j] != ' ')
    && (forall i :: 0 <= i < |s| && s[i] == '0' ==> 0 < i && s[i - 1] != ' ')
  }

  /** A right-aligned decimal field: a blanked prefix and a units digit
      that is always printed. */
  predicate Padded(s: seq<char>)
  {
    |s| > 0 && Blanked(s[..|s| - 1]) && IsDigit(s[|s| - 1])
  }

  lemma {:induction false} AllBlankReadsZero(s: seq<char>)
    requires AllBlank(s)
    ensures ReadDecimal(s) == 0
  {
    if s != [] {
      AllBlankReadsZero(s[..|s| - 1]);
    }
  }

  /** A blanked field that reads as zero holds blanks only. */
  lemma {:induction false} BlankedZeroIsBlank(s: seq<char>)
    requires Blanked(s) && ReadDecimal(s) == 0
    ensures AllBlank(s)
  {
    if s != [] {
      var n := |s|;
      var p := s[..n - 1];
      assert Blanked(p);
      BlankedZeroIsBlank(p);
    }
  }

  /** A blanked field is determined by its length and the value it reads as. */
  lemma {:induction false} BlankedUnique(s: seq<char>, t: seq<char>)
    requires Blanked(s) && Blanked(t) && |s| == |t|
    requires ReadDecimal(s) == ReadDecimal(t)
    ensures s == t
  {
    if s != [] {
      var n := |s|;
      if s[n - 1] == ' ' || t[n - 1] == ' ' {
        if s[n - 1] == ' ' {
          assert AllBlank(s);
          AllBlankReadsZero(s);
          BlankedZeroIsBlank(t);
        } else {
          assert AllBlank(t);
          AllBlankReadsZero(t);
          BlankedZeroIsBlank(s);
        }
      } else {
        var p, q := s[..n - 1], t[..n - 1];
        assert Blanked(p) && Blanked(q);
        LastDigitSplit(s, t);
        BlankedUnique(p, q);
        assert s == p + [s[n - 1]] && t == q + [t[n - 1]];
      }
    }
  }

  /** A padded field is determined by its length and the value it reads as:
      ReadDecimal is a left inverse of the printing routines below. */
  lemma PaddedUnique(s: seq<char>, t: seq<char>)
    requires Padded(s) && Padded(t) && |s| == |t|
    requires ReadDecimal(s) == ReadDecimal(t)
    ensures s == t
  {
    var n := |s|;
    var p, q := s[..n - 1], t[..n - 1];
    LastDigitSplit(s, t);
    BlankedUnique(p, q);
    assert s == p + [s[n - 1]] && t == q + [t[n - 1]];
  }

  /** Two fields of one length ending in digits read the same only if
      their last digits and their prefixes read the same. */
  lemma LastDigitSplit(s: seq<char>, t: seq<char>)
    requires |s| == |t| > 0 && IsDigit(s[|s| - 1]) && IsDigit(t[|t| - 1])
    requires ReadDecimal(s) == ReadDecimal(t)
    ensures s[|s| - 1] == t[|t| - 1]
    ensures ReadDecimal(s[..|s| - 1]) == ReadDecimal(t[..|t| - 1])
  {
    var n := |s|;
    var a, b := CharValue(s[n - 1]), CharValue(t[n - 1]);
    assert a < 10 && b < 10;
    DigitSplit(ReadDecimal(s[..n - 1]), a, ReadDecimal(t[..n - 1]), b);
  }

  /** The units digit and the rest of a decimal number are unique. */
  lemma DigitSplit(x: nat, a: nat, y: nat, b: nat)
    requires a < 10 && b < 10 && x * 10 + a == y * 10 + b
    ensures x == y && a == b
  {
  }

  // ---------------------------------------------------------------------
  // Generic_PutDec

  /** The window in which `Dec16 = Dec32` loses bit 16: the remainder below
      100000 lies in [65536, 79999]. */
  predicate InNarrowingWindow(dec32: int)
  {
    65536 <= dec32 % 100000 < 80000
  }

  /** One decimal position of Generic_PutDec: compare-and-subtract with 8w
      (when `eight`), 4w, 2w and w, without dividing. */
  method Position(x: nat, w: nat, eight: bool) returns (digit: nat, rest: nat)
    requires w > 0
    requires x < (if eight then 10 else 8) * w
    ensures digit < 10 && rest < w
    ensures x == digit * w + rest
  {
    digit, rest := 0, x;
    if eight && rest >= 8 * w {
      digit, rest := digit + 8, rest - 8 * w;
    }
    if rest >= 4 * w {
      digit, rest := digit + 4, rest - 4 * w;
    }
    if rest >= 2 * w {
      digit, rest := digit + 2, rest - 2 * w;
    }
    if rest >= w {
      digit, rest := digit + 1, rest - w;
    }
  }

  /** Prints one leading position: the digit, or a blank while ZeroFlag
      says only zeros have been seen so far. */
  method EmitPosition(out: seq<char>, zeroFlag: bool, digit: nat) returns (out': seq<char>, zeroFlag': bool)
    requires digit < 10
    requires Blanked(out) && zeroFlag == AllBlank(out)
    ensures Blanked(out') && zeroFlag' == AllBlank(out')
    ensures |out'| == |out| + 1 && out'[..|out|] == out
    ensures ReadDecimal(out') == ReadDecimal(out) * 10 + digit
  {
    if digit != 0 || !zeroFlag {
      out' := out + [DigitChar(digit)];
      zeroFlag' := false;
      AppendDigit(out, digit);
    } else {
      out' := out + [' '];
      zeroFlag' := zeroFlag;
      AppendBlank(out);
    }
  }

  /** A digit after a blanked field keeps it blanked, provided a '0' only
      follows a significant digit. */
  lemma AppendDigit(out: seq<char>, digit: nat)
    requires digit < 10 && Blanked(out)
    requires digit == 0 ==> !AllBlank(out)
    ensures var s := out + [DigitChar(digit)];
            Blanked(s) && !AllBlank(s) && s[..|out|] == out && ReadDecimal(s) == ReadDecimal(out) * 10 + digit
  {
    var s := out + [DigitChar(digit)];
    var n := |out|;
    assert s[..n] == out;
    assert s[n] != ' ';
    if digit == 0 {
      var k :| 0 <= k < n && out[k] != ' ';
      assert out[n - 1] != ' ';
    }
  }

  /** A blank after an all-blank field keeps it all blank and reading 0. */
  lemma AppendBlank(out: seq<char>)
    requires AllBlank(out)
    ensures var s := out + [' '];
            Blanked(s) && AllBlank(s) && s[..|out|] == out && ReadDecimal(s) == ReadDecimal(out) * 10
  {
    var s := out + [' '];
    assert s[..|out|] == out;
    AllBlankReadsZero(out);
  }

  /** The first five positions (10^9 down to 10^5): the printed prefix and
      the remainder below 100000. */
  method PutDecHigh(dec32: uint32) returns (out: seq<char>, zeroFlag: bool, rem: nat)
    ensures |out| == 5 && Blanked(out) && zeroFlag == AllBlank(out)
    ensures rem < 100000 && ReadDecimal(out) * 100000 + rem == dec32
  {
    out, zeroFlag := [], true;
    var digit, dec := Position(dec32, 1000000000, false);
    out, zeroFlag := EmitPosition(out, zeroFlag, digit);
    assert ReadDecimal(out) * 1000000000 + dec == dec32;
    digit, dec := Position(dec, 100000000, true);
    out, zeroFlag := EmitPosition(out, zeroFlag, digit);
    assert ReadDecimal(out) * 100000000 + dec == dec32;
    digit, dec := Position(dec, 10000000, true);
    out, zeroFlag := EmitPosition(out, zeroFlag, digit);
    assert ReadDecimal(out) * 10000000 + dec == dec32;
    digit, dec := Position(dec, 1000000, true);
    out, zeroFlag := EmitPosition(out, zeroFlag, digit);
    assert ReadDecimal(out) * 1000000 + dec == dec32;
    digit, dec := Position(dec, 100000, true);
    out, zeroFlag := EmitPosition(out, zeroFlag, digit);
    rem := dec;
  }

  /** The last four positions, worked on the 16-bit Dec16: thousands,
      hundreds and tens, then the units digit, which is always printed. */
  method PutDecLow(out: seq<char>, zeroFlag: bool, dec16: uint16) returns (out': seq<char>)
    requires dec16 < 10000
    requires |out| == 6 && Blanked(out) && zeroFlag == AllBlank(out)
    ensures |out'| == 10 && Padded(out')
    ensures ReadDecimal(out') == ReadDecimal(out) * 10000 + dec16
  {
    var o, z := out, zeroFlag;
    var digit, dec := Position(dec16, 1000, true);
    o, z := EmitPosition(o, z, digit);
    assert ReadDecimal(o) * 1000 + dec == ReadDecimal(out) * 10000 + dec16;
    digit, dec := Position(dec, 100, true);
    o, z := EmitPosition(o, z, digit);
    assert ReadDecimal(o) * 100 + dec == ReadDecimal(out) * 10000 + dec16;
    digit, dec := Position(dec, 10, true);
    o, z := EmitPosition(o, z, digit);
    out' := o + [DigitChar(dec)];
    assert out'[..|out'| - 1] == o;
  }

  /** Generic_PutDec as written: ten characters for every input, leading
      zeros blanked, the units digit always printed. Because `Dec16 = Dec32`
      drops bit 16 while the remainder below 100000 is still up to 79999,
      the digits spell dec32 exactly outside the narrowing window and
      dec32 - 65536 inside it. */
  method GenericPutDec(putChar: PutCharFn, dec32: uint32) returns (out: seq<char>)
    ensures putChar == NullPutChar ==> out == []
    ensures putChar != NullPutChar ==> |out| == 10 && Padded(out)
    ensures putChar != NullPutChar ==> (ReadDecimal(out) == dec32 <==> !InNarrowingWindow(dec32))
    ensures putChar != NullPutChar && InNarrowingWindow(dec32) ==> ReadDecimal(out) == dec32 - 65536
  {
    out := [];
    if putChar != NullPutChar {
      var zeroFlag, dec;
      out, zeroFlag, dec := PutDecHigh(dec32);
      assert dec == dec32 % 100000;
      var digit := 0;
      if dec >= 80000 {
        digit, dec := digit + 8, dec - 80000;
      }
      var dec16: uint16 := dec % 0x1_0000;  // Dec16 = Dec32
      var d, rest := Position(dec16, 10000, false);
      digit := digit + d;
      out, zeroFlag := EmitPosition(out, zeroFlag, digit);
      out := PutDecLow(out, zeroFlag, rest);
    }
  }

  /** Generic_PutDec as evidently intended: the narrowing to 16 bits is
      done once the value is below 10000, and the digits always spell the
      input. */
  method GenericPutDecWide(putChar: PutCharFn, dec32: uint32) returns (out: seq<char>)
    ensures putChar == NullPutChar ==> out == []
    ensures putChar != NullPutChar ==> |out| == 10 && Padded(out) && ReadDecimal(out) == dec32
  {
    out := [];
    if putChar != NullPutChar {
      var zeroFlag, dec;
      out, zeroFlag, dec := PutDecHigh(dec32);
      var digit, rest := Position(dec, 10000, true);
      out, zeroFlag := EmitPosition(out, zeroFlag, digit);
      out := PutDecLow(out, zeroFlag, rest);
    }
  }

  /** 65536 sits in the narrowing window and prints as the value 0: nine
      blanks and a '0'. */
  method NarrowingCounterexample() returns (out: seq<char>)
    ensures out == "         0"
  {
    out := GenericPutDec(U1PutChar, 65536);
    var zero := "         0";
    assert Blanked(zero[..9]);
    assert ReadDecimal(zero) == 0 by {
      assert AllBlank(zero[..9]);
      AllBlankReadsZero(zero[..9]);
    }
    PaddedUnique(out, zero);
  }

  /** The value 0 prints as nine blanks then '0'. */
  lemma ZeroPrintsAsUnitsDigit(s: seq<char>)
    requires |s| == 10 && Padded(s) && ReadDecimal(s) == 0
    ensures s == "         0"
  {
    var zero := "         0";
    assert Blanked(zero[..9]);
    assert ReadDecimal(zero) == 0 by {
      assert AllBlank(zero[..9]);
      AllBlankReadsZero(zero[..9]);
    }
    PaddedUnique(s, zero);
  }

  /** Values below 65536 (the 16-bit callers U1_PutDec and U2_PutDec) never
      fall into the narrowing window. */
  lemma SixteenBitOutsideWindow(dec: uint16)
    ensures !InNarrowingWindow(dec)
  {
  }

  // ---------------------------------------------------------------------
  // Generic_PutHex, Generic_PutHexWord

  const HexChar: seq<char> := "0123456789ABCDEF"

  predicate IsHexChar(c: char) { '0' <= c <= '9' || 'A' <= c <= 'F' }

  function HexValue(c: char): nat
  {
    if '0' <= c <= '9' then c as int - '0' as int
    else if 'A' <= c <= 'F' then c as int - 'A' as int + 10
    else 0
  }

  /** Reads a field of upper-case hexadecimal digits, most significant first. */
  function ReadHex(s: seq<char>): nat
  {
    if s == [] then 0 else ReadHex(s[..|s| - 1]) * 16 + HexValue(s[|s| - 1])
  }

  /** The lookup table holds the sixteen digits in order. */
  lemma HexCharTable(k: nat)
    requires k < 16
    ensures IsHexChar(HexChar[k]) && HexValue(HexChar[k]) == k
  {
    if k < 10 {
      assert HexChar[k] == ('0' as int + k) as char;
    } else {
      assert HexChar[k] == ('A' as int + k - 10) as char;
    }
  }

  /** Generic_PutHex: two digits from the table, high nibble first. */
  function GenericPutHex(putChar: PutCharFn, hex: uint8): (out: seq<char>)
    ensures putChar == NullPutChar ==> out == []
    ensures putChar != NullPutChar ==>
              |out| == 2 && IsHexChar(out[0]) && IsHexChar(out[1]) &&
              HexValue(out[0]) == hex / 16 && ReadHex(out) == hex
  {
    if putChar == NullPutChar then []
    else
      var hi, lo := (hex / 16) % 16, hex % 16;  // (Hex>>4) & 0x0F, Hex & 0x0F
      HexCharTable(hi);
      HexCharTable(lo);
      var out := [HexChar[hi], HexChar[lo]];
      assert out[..1] == [HexChar[hi]] && out[..1][..0] == [];
      assert ReadHex(out[..1]) == hi;
      assert ReadHex(out) == hi * 16 + lo;
      out
  }

  /** Generic_PutHexWord: the high byte then the low byte, four digits. */
  function GenericPutHexWord(putChar: PutCharFn, hex: uint16): (out: seq<char>)
    ensures putChar == NullPutChar ==> out == []
    ensures putChar != NullPutChar ==>
              (|out| == 4 && (forall i :: 0 <= i < 4 ==> IsHexChar(out[i])) && ReadHex(out) == hex)
  {
    var hi, lo := GenericPutHex(putChar, hex / 256), GenericPutHex(putChar, hex % 256);
    if putChar != NullPutChar then
      ReadHexAppendPair(hi, lo);
      hi + lo
    else hi + lo
  }

  /** Two more hex digits multiply the value read so far by 256. */
  lemma ReadHexAppendPair(a: seq<char>, b: seq<char>)
    requires |b| == 2
    ensures ReadHex(a + b) == ReadHex(a) * 256 + ReadHex(b)
  {
    var ab := a + b;
    assert ab[..|ab| - 1] == a + [b[0]];
    assert (a + [b[0]])[..|a|] == a;
    assert b[..|b| - 1] == [b[0]] && [b[0]][..0] == [];
    assert ReadHex([b[0]]) == HexValue(b[0]);
  }

  /** Every two-digit upper-case hexadecimal field is what Generic_PutHex
      prints for the value it reads as. */
  lemma HexRoundTrip(s: seq<char>)
    requires |s| == 2 && IsHexChar(s[0]) && IsHexChar(s[1])
    ensures ReadHex(s) < 256 && GenericPutHex(U1PutChar, ReadHex(s)) == s
  {
    assert s[..1] == [s[0]] && s[..1][..0] == [];
    assert ReadHex(s[..1]) == HexValue(s[0]);
    var v := ReadHex(s);
    assert v == HexValue(s[0]) * 16 + HexValue(s[1]);
    var out := GenericPutHex(U1PutChar, v);
    HexCharTable(v % 16);
    assert out[1] == HexChar[v % 16];
    assert HexValue(out[1]) == HexValue(s[1]);
    HexDigitUnique(out[0], s[0]);
    HexDigitUnique(out[1], s[1]);
  }

  lemma HexDigitUnique(a: char, b: char)
    requires IsHexChar(a) && IsHexChar(b) && HexValue(a) == HexValue(b)
    ensures a == b
  {
  }

  // ---------------------------------------------------------------------
  // Generic_PutString

  /** Generic_PutString: the characters before the first NUL, in order;
      nothing when the buffer or the PutChar pointer is null. The caller
      passes an ASCIIZ string, whose length is not checked. */
  method GenericPutString(putChar: PutCharFn, pBuf: array?<char>) returns (out: seq<char>)
    requires pBuf != null && putChar != NullPutChar ==> '\0' in pBuf[..]
    ensures pBuf == null || putChar == NullPutChar ==> out == []
    ensures pBuf != null && putChar != NullPutChar ==>
              |out| < pBuf.Length && out == pBuf[..|out|] && pBuf[|out|] == '\0' && '\0' !in out
  {
    out := [];
    if pBuf != null && putChar != NullPutChar {
      var i := 0;
      var c := pBuf[i];
      i := i + 1;
      while c != '\0'
        invariant 1 <= i <= pBuf.Length
        invariant c == pBuf[i - 1]
        invariant out == pBuf[..i - 1] && '\0' !in out
        invariant '\0' in pBuf[i - 1..]
        decreases pBuf.Length - i
      {
        out := out + [c];
        assert pBuf[i - 1..] == [c] + pBuf[i..];
        c := pBuf[i];
        i := i + 1;
      }
    }
  }

  // ---------------------------------------------------------------------
  // U1BRG / U2BRG

  /** U1_BRGH_SCALE / U2_BRGH_SCALE: 4 in high-speed mode, else 16. */
  function BrghScale(brgh: bool): nat
  {
    if brgh then 4 else 16
  }

  /** U1_BRGREG as written, `(FCYC + d/1)/d - 1` with d = scale * baud,
      which is floor(FCYC / d); None when `#if U1_BRGREG > 65535` stops
      the build. */
  function U1BrgReg(fcyc: nat, scale: nat, baud: nat): (reg: Option<int>)
    requires scale > 0 && baud > 0
    ensures reg.None? <==> fcyc / (scale * baud) > 65535
    ensures reg.Some? ==> reg.value == fcyc / (scale * baud)
  {
    var d := scale * baud;
    Baud.DivBounds(fcyc, d);
    Baud.DivUnique(fcyc + d / 1, d, fcyc / d + 1);
    var v := (fcyc + d / 1) / d - 1;
    if v > 65535 then None else Some(v)
  }

  /** U2_BRGREG, `FCYC/d - 1`; None when the build stops. FCYC is an
      unsigned long, so the preprocessor's subtraction is unsigned: when
      d exceeds FCYC the quotient is 0, the `- 1L` wraps to the largest
      unsigned value, and `#if U2_BRGREG > 65535` refuses it too. */
  function U2BrgReg(fcyc: nat, scale: nat, baud: nat): (reg: Option<int>)
    requires scale > 0 && baud > 0
    ensures reg.None? <==> fcyc / (scale * baud) > 65536 || fcyc < scale * baud
    ensures reg.Some? ==> 0 <= reg.value <= 65535
    ensures reg.Some? ==> (reg.value + 1) * (scale * baud) <= fcyc < (reg.value + 2) * (scale * baud)
  {
    var d := scale * baud;
    Baud.DivBounds(fcyc, d);
    var q := fcyc / d;
    if q == 0 then None
    else
      var v := q - 1;
      if v > 65535 then None else Some(v)
  }

  /** Where both are accepted, U1_BRGREG is U2_BRGREG + 1. They disagree
      in two places only: UART1 gives up first as the divisor shrinks
      (FCYC/d = 65536 leaves U2_BRGREG at 65535), and when the divisor
      exceeds FCYC U1_BRGREG is 0 while U2_BRGREG wraps and is refused. */
  lemma U1IsU2PlusOne(fcyc: nat, scale: nat, baud: nat)
    requires scale > 0 && baud > 0
    ensures U1BrgReg(fcyc, scale, baud).Some? && U2BrgReg(fcyc, scale, baud).Some? ==>
              U1BrgReg(fcyc, scale, baud).value == U2BrgReg(fcyc, scale, baud).value + 1
    ensures U1BrgReg(fcyc, scale, baud).None? && U2BrgReg(fcyc, scale, baud).Some? <==>
              fcyc / (scale * baud) == 65536
    ensures U1BrgReg(fcyc, scale, baud).Some? && U2BrgReg(fcyc, scale, baud).None? <==>
              fcyc < scale * baud
    ensures fcyc < scale * baud ==> U1BrgReg(fcyc, scale, baud) == Some(0)
  {
    var d := scale * baud;
    var u1, u2 := U1BrgReg(fcyc, scale, baud), U2BrgReg(fcyc, scale, baud);
    Baud.DivBounds(fcyc, d);
    assert fcyc < d <==> fcyc / d == 0;
    if u1.Some? && u2.Some? {
      assert (u2.value + 1) * d <= fcyc < (u2.value + 1) * d + d;
      Baud.DivUnique(fcyc, d, u2.value + 1);
    }
  }

  /** A 1 MHz cycle clock is too slow for UART2 at 115200 baud with
      BRGH = 0: the divisor 1843200 exceeds FCYC, so U2_BRGREG wraps and
      the build refuses it, while U1_BRGREG is 0. */
  lemma SlowClockRefusesUart2()
    ensures U1BrgReg(1000000, BrghScale(false), 115200) == Some(0)
    ensures U2BrgReg(1000000, BrghScale(false), 115200).None?
  {
    U1IsU2PlusOne(1000000, BrghScale(false), 115200);
  }

  /** U1_BRGREG as evidently intended, rounded to nearest and minus one like
      BAUDRATEREG: (reg + 1) * d is within half a divisor of FCYC. In the
      preprocessor's unsigned arithmetic a rounded quotient of 0 wraps the
      `- 1L` and the `#if` refuses it, as it refuses values above 65535. */
  function U1BrgRegRounded(fcyc: nat, scale: nat, baud: nat): (reg: Option<int>)
    requires scale > 0 && baud > 0
    ensures reg.None? <==> Baud.BaudRateReg(fcyc, scale, baud) > 65535 || Baud.BaudRateReg(fcyc, scale, baud) < 0
    ensures reg.Some? ==>
              (0 <= reg.value <= 65535 &&
               (reg.value + 1) * (scale * baud) - scale * baud / 2 <= fcyc &&
               fcyc < (reg.value + 1) * (scale * baud) + (scale * baud - scale * baud / 2))
  {
    var v := Baud.BaudRateReg(fcyc, scale, baud);
    if v < 0 || v > 65535 then None else Some(v)
  }

  /** The configured UART1 (FCYC = 1 MHz, BRGH = 1, 9600 baud): as written
      the register is 26, a baud rate of 9259, more than 3 percent off;
      the rounded value 25 gives 9615. */
  lemma U1BrgRegOffByOne()
    ensures U1BrgReg(1000000, BrghScale(true), 9600) == Some(26)
    ensures U1BrgRegRounded(1000000, BrghScale(true), 9600) == Some(25)
    ensures Baud.BaudErrorPercent(Baud.BaudError(Baud.BaudActual(1000000, 4, 26), 9600), 9600) == 4
    ensures Baud.BaudErrorPercent(Baud.BaudError(Baud.BaudActual(1000000, 4, 25), 9600), 9600) == 0
  {
    assert 1000000 / 38400 == 26;
    assert (1000000 + 19200) / 38400 == 26;
    assert 1000000 / 4 / 27 == 9259;
    assert 1000000 / 4 / 26 == 9615;
    assert (341 * 100 + 4800) / 9600 == 4;
    assert (15 * 100 + 4800) / 9600 == 0;
  }

  // ---------------------------------------------------------------------
  // The channel wrappers

  /** The two UARTs, each seen as the log of characters written to its
      transmit register. */
  class UartPorts {
    var tx1: seq<char>
    var tx2: seq<char>

    constructor ()
      ensures tx1 == [] && tx2 == []
    {
      tx1, tx2 := [], [];
    }

    /** U1_PutChar / U2_PutChar once the transmitter is free: the character
        goes out on that channel. */
    method PutChar(putChar: PutCharFn, ch: char)
      requires putChar != NullPutChar
      modifies this
      ensures putChar == U1PutChar ==> tx1 == old(tx1) + [ch] && tx2 == old(tx2)
      ensures putChar == U2PutChar ==> tx2 == old(tx2) + [ch] && tx1 == old(tx1)
    {
      if putChar == U1PutChar {
        tx1 := tx1 + [ch];
      } else {
        tx2 := tx2 + [ch];
      }
    }

    /** Emits the characters a Generic_* routine produced, one PutChar each. */
    method Emit(putChar: PutCharFn, s: seq<char>)
      modifies this
      ensures putChar == U1PutChar ==> tx1 == old(tx1) + s && tx2 == old(tx2)
      ensures putChar == U2PutChar ==> tx2 == old(tx2) + s && tx1 == old(tx1)
      ensures putChar == NullPutChar ==> tx1 == old(tx1) && tx2 == old(tx2)
    {
      if putChar != NullPutChar {
        var i := 0;
        while i < |s|
          invariant 0 <= i <= |s|
          invariant putChar == U1PutChar ==> tx1 == old(tx1) + s[..i] && tx2 == old(tx2)
          invariant putChar == U2PutChar ==> tx2 == old(tx2) + s[..i] && tx1 == old(tx1)
        {
          PutChar(putChar, s[i]);
          assert s[..i + 1] == s[..i] + [s[i]];
          i := i + 1;
        }
      }
    }

    /** U1_PutDec: a 16-bit value, always printed exactly. */
    method U1PutDec(dec: uint16)
      modifies this
      ensures |tx1| == |old(tx1)| + 10 && tx1[..|old(tx1)|] == old(tx1) && tx2 == old(tx2)
      ensures Padded(tx1[|old(tx1)|..]) && ReadDecimal(tx1[|old(tx1)|..]) == dec
    {
      var s := GenericPutDec(U1PutChar, dec);
      Emit(U1PutChar, s);
      assert tx1[|old(tx1)|..] == s;
    }

    /** U1_PutDecLong as written: the digits go out on UART2, and UART1
        receives nothing. */
    method U1PutDecLong(dec: uint32)
      modifies this
      ensures tx1 == old(tx1)
      ensures |tx2| == |old(tx2)| + 10 && tx2[..|old(tx2)|] == old(tx2)
      ensures Padded(tx2[|old(tx2)|..])
      ensures ReadDecimal(tx2[|old(tx2)|..]) == dec <==> !InNarrowingWindow(dec)
      ensures InNarrowingWindow(dec) ==> ReadDecimal(tx2[|old(tx2)|..]) == dec - 0x1_0000
    {
      var s := GenericPutDec(U2PutChar, dec);
      Emit(U2PutChar, s);
      assert tx2[|old(tx2)|..] == s;
    }

    /** U1_PutDecLong as evidently intended: UART1, every value exact. */
    method U1PutDecLongFixed(dec: uint32)
      modifies this
      ensures |tx1| == |old(tx1)| + 10 && tx1[..|old(tx1)|] == old(tx1) && tx2 == old(tx2)
      ensures Padded(tx1[|old(tx1)|..]) && ReadDecimal(tx1[|old(tx1)|..]) == dec
    {
      var s := GenericPutDecWide(U1PutChar, dec);
      Emit(U1PutChar, s);
      assert tx1[|old(tx1)|..] == s;
    }

    method U1PutString(pBuf: array?<char>)
      requires pBuf != null ==> '\0' in pBuf[..]
      modifies this
      ensures tx2 == old(tx2)
      ensures pBuf == null ==> tx1 == old(tx1)
      ensures pBuf != null ==>
                exists n :: 0 <= n < pBuf.Length && pBuf[n] == '\0' && '\0' !in pBuf[..n] && tx1 == old(tx1) + pBuf[..n]
    {
      var s := GenericPutString(U1PutChar, pBuf);
      Emit(U1PutChar, s);
      if pBuf != null {
        assert pBuf[|s|] == '\0';
      }
    }

    method U1PutHex(hex: uint8)
      modifies this
      ensures tx1 == old(tx1) + GenericPutHex(U1PutChar, hex) && tx2 == old(tx2)
    {
      Emit(U1PutChar, GenericPutHex(U1PutChar, hex));
    }

    /** U1_PutHexWord as written: the four digits go out on UART2. */
    method U1PutHexWord(hex: uint16)
      modifies this
      ensures tx2 == old(tx2) + GenericPutHexWord(U2PutChar, hex) && tx1 == old(tx1)
    {
      Emit(U2PutChar, GenericPutHexWord(U2PutChar, hex));
    }

    /** U1_PutHexWord as evidently intended: the four digits go out on UART1. */
    method U1PutHexWordFixed(hex: uint16)
      modifies this
      ensures tx1 == old(tx1) + GenericPutHexWord(U1PutChar, hex) && tx2 == old(tx2)
    {
      Emit(U1PutChar, GenericPutHexWord(U1PutChar, hex));
    }

    /** U2_PutDec: the 16-bit value is widened and always printed exactly. */
    method U2PutDec(dec: uint16)
      modifies this
      ensures |tx2| == |old(tx2)| + 10 && tx2[..|old(tx2)|] == old(tx2) && tx1 == old(tx1)
      ensures Padded(tx2[|old(tx2)|..]) && ReadDecimal(tx2[|old(tx2)|..]) == dec
    {
      var s := GenericPutDec(U2PutChar, dec);
      Emit(U2PutChar, s);
      assert tx2[|old(tx2)|..] == s;
    }

    /** U2_PutDecLong: a 32-bit value, exact outside the narrowing window. */
    method U2PutDecLong(dec: uint32)
      modifies this
      ensures tx1 == old(tx1)
      ensures |tx2| == |old(tx2)| + 10 && tx2[..|old(tx2)|] == old(tx2)
      ensures Padded(tx2[|old(tx2)|..])
      ensures ReadDecimal(tx2[|old(tx2)|..]) == dec <==> !InNarrowingWindow(dec)
      ensures InNarrowingWindow(dec) ==> ReadDecimal(tx2[|old(tx2)|..]) == dec - 0x1_0000
    {
      var s := GenericPutDec(U2PutChar, dec);
      Emit(U2PutChar, s);
      assert tx2[|old(tx2)|..] == s;
    }

    method U2PutString(pBuf: array?<char>)
      requires pBuf != null ==> '\0' in pBuf[..]
      modifies this
      ensures tx1 == old(tx1)
      ensures pBuf == null ==> tx2 == old(tx2)
      ensures pBuf != null ==>
                exists n :: 0 <= n < pBuf.Length && pBuf[n] == '\0' && '\0' !in pBuf[..n] && tx2 == old(tx2) + pBuf[..n]
    {
      var s := GenericPutString(U2PutChar, pBuf);
      Emit(U2PutChar, s);
      if pBuf != null {
        assert pBuf[|s|] == '\0';
      }
    }

    method U2PutHex(hex: uint8)
      modifies this
      ensures tx2 == old(tx2) + GenericPutHex(U2PutChar, hex) && tx1 == old(tx1)
    {
      Emit(U2PutChar, GenericPutHex(U2PutChar, hex));
    }

    method U2PutHexWord(hex: uint16)
      modifies this
      ensures tx2 == old(tx2) + GenericPutHexWord(U2PutChar, hex) && tx1 == old(tx1)
    {
      Emit(U2PutChar, GenericPutHexWord(U2PutChar, hex));
    }
  }
}
