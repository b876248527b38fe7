# LGE diagnostic-lock policy engine, in Dafny

This project models the policy core of the LGE "Diag Lock" kernel driver
(`drivers/char/diag/diag_lock.c`). The driver decides whether a diagnostic
command may run. The decision uses a process-wide lock state (LOCK or UNLOCK),
a factory-boot exemption, and a per-build or per-operator list of opcodes that
stay allowed while the port is locked.

The preprocessor options become an explicit `Config` record:
`CONFIG_LGE_USB_DIAG_LOCK_SPR`, `CONFIG_LGE_USB_DIAG_LOCK_VZW`,
`CONFIG_LGE_ONE_BINARY_SKU` and `CONFIG_LGE_USB_FACTORY`. The board queries
`lge_get_factory_boot()` and `lge_get_laop_operator()` become a `Platform`
parameter. The global `diag_lock_state` is passed in, and each mutator returns
the new state as a value.

Modules, one per component:

- `DiagTypes` (`types.dfy`): the byte, the lock state and its integer encoding,
  operators, the configuration and the platform inputs.
- `AllowList` (`allow_list.dfy`): the literal `allowed_commands[]` table, the
  linear scan over it, and the one-binary `switch` with its fall-through. Each
  is proved equal to a set-valued policy.
- `Decision` (`decision.dfy`): `diag_lock_is_allowed` and
  `diag_lock_is_allowed_command`, and the `Permitted` predicate that states
  what the gate promises.
- `Control` (`control.dfy`): `diag_lock_set_allowed`, and the `diag_enable`
  sysfs show/store pair with the `%d` text conversions both sides use. Also the
  lock state as a machine driven by a sequence of setter calls and sysfs
  reads and writes.
- `Boot` (`boot.dfy`): the initial LOCK value and the seed from the
  `diag_enable` byte of the SMEM vendor record.

Modelling assumptions:

- The enum `diag_lock_state_t` lives in `diag_lock.h`, which is not part of
  this model. `diag_lock_set_allowed` stores a `bool` into the state, and
  `get_diag_lock_state_from_smem` returns `0` for a missing entry. The model
  therefore takes LOCK = 0 and UNLOCK = 1 (`DiagTypes.Code`, `DiagTypes.FromBool`).
- `sscanf(buff, "%d", &enabled)` is modelled as the kernel's conversion. It
  skips white space and accepts an optional `-` but not `+`. It then reads the
  longest run of decimal digits and fails when no digit is there. The value is
  stored into a 32-bit `int`, wrapping modulo 2^32 (`Control.Int32`). So
  "4294967296" is a successful write that locks.
- `diag_enable_show` prints the C boolean `diag_lock_state == UNLOCK` with
  `%d`. It is modelled as `FormatDecimal` of 0 or 1.

Behaviour worth noting in `diag_lock.c`:

- In one-binary builds the `OP_VZW_POSTPAID`/`OP_VZW_PREPAID` arm (lines
  128-135) has no `break` after its inner switch. It falls into `default`, so a Verizon
  operator gets 0xF8 and the six default opcodes, not 0xF8 alone. This is
  exactly the table of a dedicated VZW build (`AllowList.OneBinaryMatchesDedicatedBuilds`).
- `diag_lock_is_allowed_command` calls `diag_lock_is_allowed` first (line
  110), so a factory boot that is exempt opens the per-opcode query as well.
- `diag_lock_set_allowed` is compiled only in Sprint and one-binary builds
  (`Control.SetterAvailable`), following the `#if` at line 161.

## Model

| member | source | states |
|---|---|---|
| DiagTypes.FromBool | drivers/char/diag/diag_lock.c:162-165 | A C `bool` stored into the state encodes false as LOCK (0) and true as UNLOCK (1) |
| AllowList.AllowedCommands | drivers/char/diag/diag_lock.c:33-49 | The compiled `allowed_commands[]` holds exactly the build's policy with no duplicates: {0xA1} for Sprint, otherwise {0x29, 0x3A, 0x7E, 0xA1, 0xEF, 0xFA}, plus 0xF8 with VZW |
| AllowList.ScanAllowedCommands | drivers/char/diag/diag_lock.c:151-154 | The loop over the table returns true iff the opcode occurs in it |
| AllowList.CaseLabel | drivers/char/diag/diag_lock.c:116-149 | The case labels and arms of the one-binary switch (`OperatorSwitch`): OP_SPR_US enters an arm accepting only 0xA1 that breaks; the VZW labels enter the 0xF8 arm, which has no `break`; every other operator enters `default`, the last arm, accepting the default six and breaking |
| AllowList.RunSwitch | drivers/char/diag/diag_lock.c:116-149 | C switch execution with fall-through accepts an opcode iff some arm reachable from the entry arm without crossing a `break` accepts it |
| AllowList.OperatorSwitchMatchesPolicy | drivers/char/diag/diag_lock.c:113-149 | One-binary, locked: Sprint US allows only 0xA1; Verizon allows 0xF8 and, by fall-through, the default six; any other operator allows the default six, not nothing |
| AllowList.OneBinaryMatchesDedicatedBuilds | drivers/char/diag/diag_lock.c:34-48 | For every operator the one-binary switch allows exactly what `allowed_commands[]` holds in that operator's dedicated build |
| AllowList.PortLockAlwaysAllowed | drivers/char/diag/diag_lock.c:36-41 | Port lock 0xA1 stays allowed while locked in every build and for every operator |
| AllowList.VzwAtLockOnlyForVerizon | drivers/char/diag/diag_lock.c:43-45 | 0xF8 is allowed while locked iff the build is VZW (and not Sprint), or the one-binary operator is Verizon |
| Decision.IsAllowed | drivers/char/diag/diag_lock.c:88-95 | UNLOCK opens the gate; with FACTORY and not SPR, a factory boot of any operator but Sprint US opens it regardless of state; in every other case it is open iff UNLOCK |
| Decision.IsAllowedCommand | drivers/char/diag/diag_lock.c:98-158 | A null buffer is always denied; an open gate allows every opcode; otherwise the command is allowed iff its first byte is in the locked policy for the build and operator |
| Decision.UnlockAllowsAll | drivers/char/diag/diag_lock.c:110-111 | UNLOCK allows every non-null command, and unlocking never takes a command away |
| Decision.OnlyOpcodeMatters | drivers/char/diag/diag_lock.c:119-157 | While locked, two commands with the same first byte get the same answer |
| Decision.DefaultBuildScenario | drivers/char/diag/diag_lock.c:37-47 | Default build, locked: 0x29 is allowed and 0x05 is denied |
| Decision.SprintBuildScenario | drivers/char/diag/diag_lock.c:35-36 | Sprint build, locked: 0x29 is denied and 0xA1 allowed, even on a factory boot |
| Decision.OneBinaryScenario | drivers/char/diag/diag_lock.c:128-148 | One-binary, locked: an unnamed operator allows 0xEF but not 0xF8; Verizon allows 0xF8 and 0x29; Sprint US denies 0x29 |
| Control.SetAllowed | drivers/char/diag/diag_lock.c:161-166 | The setter (Sprint and one-binary builds only) leaves UNLOCK iff its argument is true, whatever the state was |
| Control.SetAllowedIdempotent | drivers/char/diag/diag_lock.c:162-165 | Calling the setter twice with the same argument equals calling it once |
| Control.SkipSpaces | drivers/char/diag/diag_lock.c:181 | Before converting, `%d` drops exactly the leading white space: the rest is a suffix of the input, everything dropped is white space, and the rest does not start with it |
| Control.ScanDecimalAccepts | drivers/char/diag/diag_lock.c:181 | `ScanDecimal`, the `sscanf(buff, "%d", ...)` conversion, succeeds iff the text after its leading white space starts with a digit or with '-' and a digit; otherwise `diag_enable_store` takes the -EINVAL path |
| Control.ScanSignedAccepts | drivers/char/diag/diag_lock.c:181 | `ScanSigned`, the conversion once white space is skipped, succeeds iff a digit, or '-' then a digit, comes first; a leading '-' gives a value of at most 0, anything else a value of at least 0 |
| Control.FormatDecimalShape | drivers/char/diag/diag_lock.c:171 | `FormatDecimal`, what `%d` prints, is nonempty, starts with '-' iff the value is negative, and is decimal digits apart from that sign |
| Control.ScanDigits | drivers/char/diag/diag_lock.c:181 | The `%d` conversion finds a number iff a digit comes first, and its value is that of the whole digit run |
| Control.Digits | drivers/char/diag/diag_lock.c:171 | `%d` prints a nonempty run of digits with no leading zero |
| Control.ScanFormatted | drivers/char/diag/diag_lock.c:171-181 | Reading with `%d` what `%d` printed gives back the same integer, whatever non-digit text follows |
| Control.Int32 | drivers/char/diag/diag_lock.c:179-185 | The parsed value stored in `int enabled` is a 32-bit value congruent to it modulo 2^32 |
| Control.Show | drivers/char/diag/diag_lock.c:168-173 | The attribute reads "1" iff UNLOCK and "0" otherwise, and that text converts back to the state's code |
| Control.Store | drivers/char/diag/diag_lock.c:175-188 | Unconvertible text returns -EINVAL and leaves the state; a converted value returns `size` and unlocks iff it is nonzero modulo 2^32 |
| Control.ShowStoreRoundTrip | drivers/char/diag/diag_lock.c:168-188 | Writing back what was read restores that state from any prior state |
| Control.EchoThenShow | drivers/char/diag/diag_lock.c:179-187 | After `echo n` (with its newline), a read prints "1" iff n is nonzero modulo 2^32 |
| Control.WriteThenRead | drivers/char/diag/diag_lock.c:171-187 | Writing "1" then reading gives "1"; writing "0" then reading gives "0" |
| Control.RefusedWrites | drivers/char/diag/diag_lock.c:181-182 | "abc" and "+1" are refused with -EINVAL and leave the state unchanged |
| Control.StepOverwritesOrKeeps | drivers/char/diag/diag_lock.c:162-188 | Each setter call or converted write overwrites the state with a value of its own; reads and refused writes leave it |
| Control.NoWriteKeepsState | drivers/char/diag/diag_lock.c:168-182 | A run of reads and refused writes never changes the state |
| Control.LastWriteWins | drivers/char/diag/diag_lock.c:162-188 | After any sequence of calls the state is the one written by the last overwriting call |
| Boot.StateFromSmem | drivers/char/diag/diag_lock.c:52-85 | The SMEM seed is UNLOCK iff the record is present and its `diag_enable` byte is nonzero; a missing record gives LOCK |
| Boot.InitialState | drivers/char/diag/diag_lock.c:211-223 | One-binary with Sprint US, or a Sprint build, boots with the SMEM seed; every other configuration keeps the initial value `DefaultState`, LOCK (line 31); boot unlocks only on a present, nonzero `diag_enable` |
| Boot.SizeIsIgnored | drivers/char/diag/diag_lock.c:76-78 | A record size that differs from the layout never changes the seeded state |
| Boot.SprintBootScenarios | drivers/char/diag/diag_lock.c:221-222 | Sprint build: `diag_enable` 1 boots UNLOCK, 0 boots LOCK, a missing record boots LOCK |
| Boot.BootGateIsPolicy | drivers/char/diag/diag_lock.c:31 | Right after boot, with no factory exemption and no enabling record, exactly the locked policy's opcodes pass |

## Left out

- Platform device and driver registration, `device_create_file`, `module_init` and the error unwinding of `diag_lock_init` (lines 193-239): kernel plumbing with no decision logic.
- The raw SMEM access: `smem_get_entry`, `IS_ERR_OR_NULL` and the record layout. An absent or erroneous entry is `None`. A present one is its reported size and its `diag_enable` byte.
- The `WARN` on a size mismatch and every `pr_info`/`pr_err`: logging only.
- Control.Show: returns the text only, not `snprintf`'s return value (the byte count 1 that the sysfs read reports); the one-character output always fits the `PAGE_SIZE` buffer.
- Control.SkipSpaces: the kernel's `isspace` also counts byte 0xA0 as white space, and the model counts only the six ASCII white-space characters. The sysfs buffer is modelled as a Dafny string whose characters are the buffer's bytes.
- Control.Store: `size` is a natural number, so the `size_t` to `ssize_t` conversion of the return value is not modelled.
- `lge_get_factory_boot` and `lge_get_laop_operator` are external; their results are inputs.
- Concurrency and the atomicity of `diag_lock_state`: each decision reads one snapshot, so the model is sequential.
- `diag_lock.h` is not part of this model. The LOCK = 0, UNLOCK = 1 encoding is the assumption stated above.
