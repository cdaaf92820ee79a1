/** The compile-time UART baud-rate arithmetic of the PIC24 deep-sleep
    programs: the BRG register value, the baud rate it really gives, and the
    rounded error percentage that stops (above 3) or warns about (above 2)
    the build. All operands are positive `long` constants, so C's division
    is the floor division used here. */
module Baud {

  /** BAUDRATEREG: FCYC / (BRG_DIV * BAUDRATE) rounded to the nearest
      integer (halves up), minus one, since the UART divides by BRG + 1. */
  function BaudRateReg(fcyc: nat, brgDiv: nat, baud: nat): (reg: int)
    requires brgDiv > 0 && baud > 0
    ensures reg >= -1
    ensures (reg + 1) * (brgDiv * baud) - brgDiv * baud / 2 <= fcyc
    ensures fcyc < (reg + 1) * (brgDiv * baud) + (brgDiv * baud - brgDiv * baud / 2)
  {
    var d := brgDiv * baud;
    RoundBounds(fcyc, d);
    (fcyc + d / 2) / d - 1
  }

  /** (x + d/2) / d is x / d rounded to nearest, halves up. */
  lemma RoundBounds(x: nat, d: nat)
    requires d > 0
    ensures ((x + d / 2) / d) * d - d / 2 <= x < ((x + d / 2) / d) * d + (d - d / 2)
  {
    DivBounds(x + d / 2, d);
  }

  /** x / d is the largest multiple count of d not above x. */
  lemma DivBounds(x: nat, d: nat)
    requires d > 0
    ensures (x / d) * d <= x < (x / d) * d + d
  {
  }

  /** A quotient is pinned down by the multiple of d it brackets. */
  lemma DivUnique(x: nat, d: nat, q: int)
    requires d > 0 && q * d <= x < q * d + d
    ensures x / d == q
  {
    DivBounds(x, d);
    var r := x / d;
    if r > q {
      MulMonotone(q + 1, r, d);
    } else if r < q {
      MulMonotone(r + 1, q, d);
    }
  }

  lemma MulMonotone(a: int, b: int, d: nat)
    requires a <= b
    ensures a * d <= b * d
  {
  }

  /** BAUD_ACTUAL: the rate the UART really runs at with that register,
      FCYC divided by BRG_DIV * (BRG + 1) and rounded down; dividing in
      two steps loses nothing. */
  function BaudActual(fcyc: nat, brgDiv: nat, reg: int): (rate: nat)
    requires brgDiv > 0 && reg + 1 > 0
    ensures rate * (brgDiv * (reg + 1)) <= fcyc < (rate + 1) * (brgDiv * (reg + 1))
  {
    NestedDiv(fcyc, brgDiv, reg + 1);
    fcyc / brgDiv / (reg + 1)
  }

  /** Dividing by a, then by b, brackets x between multiples of a * b. */
  lemma NestedDiv(x: nat, a: nat, b: nat)
    requires a > 0 && b > 0
    ensures (x / a / b) * (a * b) <= x < (x / a / b + 1) * (a * b)
  {
    var q1 := x / a;
    var q := q1 / b;
    DivBounds(x, a);
    DivBounds(q1, b);
    MulMonotone(q * b, q1, a);
    MulMonotone(q1 + 1, q * b + b, a);
    assert (q * b) * a == q * (a * b);
    assert (q * b + b) * a == (q + 1) * (a * b);
  }

  /** BAUD_ERROR: the distance between the actual and the requested rate. */
  function BaudError(actual: nat, baud: nat): (err: nat)
    ensures err == actual - baud || err == baud - actual
    ensures actual + err == baud || baud + err == actual
  {
    if actual > baud then actual - baud else baud - actual
  }

  /** BAUD_ERROR_PRECENT: the error as a percentage of the requested rate,
      rounded to the nearest integer (halves up). */
  function BaudErrorPercent(err: nat, baud: nat): (pct: nat)
    requires baud > 0
    ensures pct * baud <= err * 100 + baud / 2 < pct * baud + baud
  {
    DivBounds(err * 100 + baud / 2, baud);
    (err * 100 + baud / 2) / baud
  }

  /** What the preprocessor does with the configuration: stop with #error,
      go on with #warning, or accept it silently. */
  datatype Verdict = Accepted | Warned | Rejected

  /** The #if chain after the macros. A register value of -1 makes
      BAUD_ACTUAL divide by zero, which the preprocessor also refuses. */
  function BaudCheck(fcyc: nat, brgDiv: nat, baud: nat): Verdict
    requires brgDiv > 0 && baud > 0
  {
    var reg := BaudRateReg(fcyc, brgDiv, baud);
    if reg + 1 <= 0 then Rejected
    else
      var pct := BaudErrorPercent(BaudError(BaudActual(fcyc, brgDiv, reg), baud), baud);
      if pct > 3 then Rejected
      else if pct > 2 then Warned
      else Accepted
  }

  /** A configuration the build accepts runs within 2.5 percent of the
      requested rate (for an even rate), and one it warns about within 3.5. */
  lemma CheckBoundsError(fcyc: nat, brgDiv: nat, baud: nat)
    requires brgDiv > 0 && baud > 0
    requires BaudCheck(fcyc, brgDiv, baud) != Rejected
    ensures var reg := BaudRateReg(fcyc, brgDiv, baud);
            reg + 1 > 0 &&
            var err := BaudError(BaudActual(fcyc, brgDiv, reg), baud);
            (BaudCheck(fcyc, brgDiv, baud) == Accepted ==> err * 100 < 3 * baud - baud / 2) &&
            err * 100 < 4 * baud - baud / 2
  {
    var reg := BaudRateReg(fcyc, brgDiv, baud);
    var err := BaudError(BaudActual(fcyc, brgDiv, reg), baud);
    var pct := BaudErrorPercent(err, baud);
    PercentBound(err, baud, pct, 3);
    if BaudCheck(fcyc, brgDiv, baud) == Accepted {
      PercentBound(err, baud, pct, 2);
    }
  }

  /** A rounded percentage of at most k bounds the error below k + 1/2. */
  lemma PercentBound(err: nat, baud: nat, pct: nat, k: nat)
    requires baud > 0 && pct <= k
    requires err * 100 + baud / 2 < pct * baud + baud
    ensures err * 100 < (k + 1) * baud - baud / 2
  {
    MulMonotone(pct, k, baud);
  }

  /** The configuration both PIC24 deep-sleep programs build with: FCYC of
      16 MHz, the high-speed divider 4 and 9600 baud give register 416, an
      actual rate of 9592 and a rounded error of 0 percent. */
  lemma DeepSleepConfigurationAccepted()
    ensures BaudRateReg(16000000, 4, 9600) == 416
    ensures BaudActual(16000000, 4, 416) == 9592
    ensures BaudCheck(16000000, 4, 9600) == Accepted
  {
    assert (16000000 + 19200) / 38400 == 417;
    assert 16000000 / 4 / 417 == 9592;
    assert (8 * 100 + 4800) / 9600 == 0;
  }
}
