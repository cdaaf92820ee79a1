/** Machine-level types shared by the models: the C integer widths the
    firmware uses, and Option for values a routine may leave unset. */
module Machine {

  /** `unsigned char` */
  type uint8 = x: int | 0 <= x < 0x100

  /** `unsigned short` / `unsigned int` on the 8- and 16-bit PICs */
  type uint16 = x: int | 0 <= x < 0x1_0000

  /** `unsigned long` on the PIC24, `UINT32` on the PIC32 */
  type uint32 = x: int | 0 <= x < 0x1_0000_0000

  datatype Option<+T> = None | Some(value: T) {
    function GetOr(default: T): T {
      match this
      case Some(v) => v
      case None => default
    }
  }
}
