/** The PIC18F25K80 CAN template's test data: a table of three 14-byte
    CanBuffer images filled with a counting pattern, the 4-bit DLC field
    set in each, and the copy of DLC data bytes from each message into the
    first transmit buffer's image.

    A CanBuffer is one control byte, a four-byte identifier, one DLC byte
    (DLC in the low four bits, then two reserved bits, RTR and a reserved
    bit) and eight data bytes. */
module CanTemplate {
  import opened Machine

  const ConOffset: nat := 0
  const IdOffset: nat := 1
  const DlcOffset: nat := 5
  const DataOffset: nat := 6
  const DataBytes: nat := 8

  /** sizeof(CanBuffer). */
  const BufferSize: nat := DataOffset + DataBytes

  /** TXDATA_BUFFERS. */
  const Buffers: nat := 3

  /** `TxData[y][x] = (y<<4)+x` stored into an unsigned char: 16·y + x,
      which never needs the truncation to 8 bits. */
  function Cell(y: nat, x: nat): (v: uint8)
    requires y < Buffers && x < BufferSize
    ensures v == 16 * y + x && v <= 45
    ensures v / 16 == y && v % 16 == x
  {
    (y * 16 + x) % 256
  }

  /** The DLC field of a DLC byte. */
  function Dlc(b: uint8): (n: nat)
    ensures n < 16
  {
    b % 16
  }

  /** `DLC.bits.DLC = dlc`: the low nibble becomes dlc, the high nibble
      (the reserved bits and RTR) is kept. */
  function WithDlc(b: uint8, dlc: nat): (r: uint8)
    requires dlc < 16
    ensures r / 16 == b / 16 && Dlc(r) == dlc
  {
    (b / 16) * 16 + dlc
  }

  /** TxData_Init: every cell of the table holds its counting value. Only
      the table is written. */
  method TxDataInit(t: array2<uint8>)
    requires t.Length0 == Buffers && t.Length1 == BufferSize
    modifies t
    ensures forall y, x :: 0 <= y < Buffers && 0 <= x < BufferSize ==> t[y, x] == Cell(y, x)
  {
    var y := 0;
    while y < Buffers
      invariant 0 <= y <= Buffers
      invariant forall i, j :: 0 <= i < y && 0 <= j < BufferSize ==> t[i, j] == Cell(i, j)
    {
      var x := 0;
      while x < BufferSize
        invariant 0 <= x <= BufferSize
        invariant forall i, j :: 0 <= i < y && 0 <= j < BufferSize ==> t[i, j] == Cell(i, j)
        invariant forall j :: 0 <= j < x ==> t[y, j] == Cell(y, j)
      {
        t[y, x] := Cell(y, x);
        x := x + 1;
      }
      y := y + 1;
    }
  }

  /** `((CanBuffer *)(&TxData[y][0]))->DLC.bits.DLC = dlc`: only the low
      nibble of row y's DLC byte changes. */
  method SetDlc(t: array2<uint8>, y: nat, dlc: nat)
    requires y < t.Length0 && DlcOffset < t.Length1 && dlc < 16
    modifies t
    ensures t[y, DlcOffset] == WithDlc(old(t[y, DlcOffset]), dlc)
    ensures forall i, j :: 0 <= i < t.Length0 && 0 <= j < t.Length1 && (i != y || j != DlcOffset) ==> t[i, j] == old(t[i, j])
  {
    t[y, DlcOffset] := WithDlc(t[y, DlcOffset], dlc);
  }

  /** The counting pattern with DLC = 8 set in the first k messages, so
      that each of their DLC bytes reads 16·y + 8. */
  predicate DlcSetIn(t: array2<uint8>, k: nat)
    reads t
  {
    && t.Length0 == Buffers && t.Length1 == BufferSize
    && forall y, x :: 0 <= y < Buffers && 0 <= x < BufferSize ==>
         t[y, x] == if x == DlcOffset && y < k then 16 * y + DataBytes else Cell(y, x)
  }

  /** The table main sends: DLC = 8 in all three messages. */
  predicate IsTestTable(t: array2<uint8>)
    reads t
  {
    DlcSetIn(t, Buffers)
  }

  /** main's set-up: TxData_Init, then DLC = 8 in each of the three
      messages. */
  method SetUpTestData(t: array2<uint8>)
    requires t.Length0 == Buffers && t.Length1 == BufferSize
    modifies t
    ensures IsTestTable(t)
    ensures forall y :: 0 <= y < Buffers ==> Dlc(t[y, DlcOffset]) == DataBytes
  {
    TxDataInit(t);
    assert DlcSetIn(t, 0);
    SetNextDlc(t, 0);
    SetNextDlc(t, 1);
    SetNextDlc(t, 2);
  }

  /** The `DLC.bits.DLC = 8` statement for message k. */
  method SetNextDlc(t: array2<uint8>, k: nat)
    requires k < Buffers && DlcSetIn(t, k)
    modifies t
    ensures DlcSetIn(t, k + 1)
  {
    DlcByte(k);
    SetDlc(t, k, DataBytes);
  }

  /** Setting DLC = 8 in a freshly filled row gives the DLC byte 16·y + 8. */
  lemma DlcByte(y: nat)
    requires y < Buffers
    ensures WithDlc(Cell(y, DlcOffset), DataBytes) == 16 * y + DataBytes
  {
    assert Cell(y, DlcOffset) / 16 == y;
  }

  /** Row y of the table as a sequence of bytes. */
  function Row(t: array2<uint8>, y: nat): (r: seq<uint8>)
    requires y < t.Length0
    reads t
    ensures |r| == t.Length1 && forall x :: 0 <= x < t.Length1 ==> r[x] == t[y, x]
  {
    seq(t.Length1, x requires 0 <= x < t.Length1 reads t => t[y, x])
  }

  /** `memcpy(pBuf->Data, pMsg->Data, pMsg->DLC.bits.DLC)`: the message's
      first DLC data bytes go to the buffer's data bytes; the buffer's
      control, identifier and DLC bytes and its remaining data bytes are
      left as they were. The message's DLC must fit its eight data
      bytes. */
  method CopyData(dest: array<uint8>, t: array2<uint8>, y: nat)
    requires dest.Length == BufferSize && t.Length1 == BufferSize && y < t.Length0
    requires Dlc(t[y, DlcOffset]) <= DataBytes
    modifies dest
    ensures var n := Dlc(t[y, DlcOffset]);
            && dest[DataOffset..DataOffset + n] == Row(t, y)[DataOffset..DataOffset + n]
            && dest[..DataOffset] == old(dest[..DataOffset])
            && dest[DataOffset + n..] == old(dest[DataOffset + n..])
  {
    var n := Dlc(t[y, DlcOffset]);
    ghost var source := Row(t, y);
    var k := 0;
    while k < n
      invariant 0 <= k <= n
      invariant dest[DataOffset..DataOffset + k] == source[DataOffset..DataOffset + k]
      invariant dest[..DataOffset] == old(dest[..DataOffset])
      invariant dest[DataOffset + n..] == old(dest[DataOffset + n..])
    {
      dest[DataOffset + k] := t[y, DataOffset + k];
      k := k + 1;
    }
  }

  /** One pass of main's loop: the three messages are copied in turn, so
      the buffer ends with the third message's eight data bytes, 0x26 to
      0x2D, and its first six bytes untouched. */
  method SendPass(dest: array<uint8>, t: array2<uint8>)
    requires dest.Length == BufferSize && IsTestTable(t)
    modifies dest
    ensures dest[DataOffset..] == [0x26, 0x27, 0x28, 0x29, 0x2A, 0x2B, 0x2C, 0x2D]
    ensures dest[..DataOffset] == old(dest[..DataOffset])
  {
    CopyData(dest, t, 0);
    CopyData(dest, t, 1);
    CopyData(dest, t, 2);
    assert dest[DataOffset..] == Row(t, 2)[DataOffset..DataOffset + DataBytes];
  }
}
