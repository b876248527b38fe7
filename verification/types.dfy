/** Shared vocabulary of the LGE diagnostic-lock policy engine
    (drivers/char/diag/diag_lock.c): the lock state, the build configuration,
    the runtime platform identity and the opcode byte. */
module DiagTypes {

  /** One byte of a diagnostic command buffer; the first byte is the opcode. */
  type byte = b: int | 0 <= b < 0x100

  /** A value that may be absent: a null pointer, a missing SMEM entry, a
      failed conversion. */
  datatype Option<+T> = None | Some(value: T)

  /** diag_lock_state_t. Its enum is declared in diag_lock.h, which is not part
      of this model. diag_lock_set_allowed stores a C `bool` straight into the
      state and get_diag_lock_state_from_smem returns the literal 0 for a
      missing entry, so the model assumes LOCK is 0 and UNLOCK is 1 (see Code). */
  datatype LockState = Lock | Unlock

  /** The integer that encodes a lock state under that assumption. */
  function Code(s: LockState): int {
    match s
    case Lock => 0
    case Unlock => 1
  }

  /** C's conversion of a `bool` into diag_lock_state_t: false is 0, true is 1. */
  function FromBool(b: bool): (s: LockState)
    ensures Code(s) == if b then 1 else 0
    ensures s == Unlock <==> b
  {
    if b then Unlock else Lock
  }

  /** The operators that lge_get_laop_operator() can report and that the
      driver tells apart; every other operator is OtherOperator. */
  datatype Operator = SprUs | VzwPostpaid | VzwPrepaid | OtherOperator

  /** The kernel configuration options the driver is compiled against:
      CONFIG_LGE_USB_DIAG_LOCK_SPR, CONFIG_LGE_USB_DIAG_LOCK_VZW,
      CONFIG_LGE_ONE_BINARY_SKU and CONFIG_LGE_USB_FACTORY. */
  datatype Config = Config(spr: bool, vzw: bool, oneBinary: bool, factory: bool)

  /** What the board code reports at run time: lge_get_factory_boot() and
      lge_get_laop_operator(). Both are inputs to the model. */
  datatype Platform = Platform(factoryBoot: bool, operator: Operator)
}
