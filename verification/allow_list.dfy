/** The opcodes that stay allowed while the diagnostic port is locked: the
    literal allowed_commands[] table of ordinary builds, the operator switch of
    one-binary builds, and the policy both are meant to implement. */
module AllowList {
  import opened DiagTypes

  const TestmodeReset: byte := 0x29
  const DloadReset: byte := 0x3A
  const AsyncHdlcFlag: byte := 0x7E
  const PortLock: byte := 0xA1
  const WebDownload: byte := 0xEF
  const VzwAtLock: byte := 0xF8
  const Testmode: byte := 0xFA

  /** The six opcodes every carrier but Sprint keeps while locked. */
  const DefaultOpcodes: set<byte> :=
    {TestmodeReset, DloadReset, AsyncHdlcFlag, PortLock, WebDownload, Testmode}

  /** The locked-state policy of a build without CONFIG_LGE_ONE_BINARY_SKU:
      port lock alone for Sprint, the default six otherwise, plus the Verizon
      AT-lock opcode when CONFIG_LGE_USB_DIAG_LOCK_VZW is set. */
  function BuildPolicy(cfg: Config): set<byte> {
    if cfg.spr then {PortLock}
    else if cfg.vzw then DefaultOpcodes + {VzwAtLock}
    else DefaultOpcodes
  }

  /** The locked-state policy of a one-binary build, keyed by the runtime
      operator. Verizon gets the AT-lock opcode on top of the default six,
      and an operator the switch does not name gets the default six. */
  function OperatorPolicy(op: Operator): set<byte> {
    match op
    case SprUs => {PortLock}
    case VzwPostpaid | VzwPrepaid => {VzwAtLock} + DefaultOpcodes
    case OtherOperator => DefaultOpcodes
  }

  /** The opcodes allowed while locked, for any build and operator. */
  function LockedPolicy(cfg: Config, op: Operator): set<byte> {
    if cfg.oneBinary then OperatorPolicy(op) else BuildPolicy(cfg)
  }

  /** allowed_commands[] as the preprocessor lays it out, in source order.
      The array only exists in builds without CONFIG_LGE_ONE_BINARY_SKU. */
  function AllowedCommands(cfg: Config): (table: seq<byte>)
    requires !cfg.oneBinary
    ensures forall b :: b in table <==> b in BuildPolicy(cfg)
    ensures forall i, j :: 0 <= i < j < |table| ==> table[i] != table[j]
  {
    if cfg.spr then [PortLock]
    else [TestmodeReset, DloadReset, AsyncHdlcFlag, PortLock, WebDownload]
         + (if cfg.vzw then [VzwAtLock] else [])
         + [Testmode]
  }

  /** The for loop over allowed_commands[]: true as soon as an entry equals
      the opcode, false once the table is exhausted. */
  method ScanAllowedCommands(table: seq<byte>, opcode: byte) returns (found: bool)
    ensures found <==> opcode in table
  {
    var i := 0;
    while i < |table|
      invariant 0 <= i <= |table|
      invariant opcode !in table[..i]
    {
      if table[i] == opcode {
        return true;
      }
      i := i + 1;
    }
    return false;
  }

  /** One arm of a C switch on the opcode: the opcodes whose inner case
      returns true, and whether the arm ends in `break` (otherwise control
      falls into the next arm). */
  datatype Arm = Arm(accepts: set<byte>, breaks: bool)

  /** The outer `switch (opcode)` of a one-binary build, arms in source
      order: OP_SPR_US, then the shared OP_VZW_POSTPAID / OP_VZW_PREPAID arm,
      which has no `break` and so falls into `default`, then `default`. */
  const OperatorSwitch: seq<Arm> :=
    [ Arm({PortLock}, true),
      Arm({VzwAtLock}, false),
      Arm(DefaultOpcodes, true) ]

  /** The arm the outer switch jumps to for an operator: Sprint US lands on
      an arm that accepts port lock alone and breaks; a Verizon operator on
      the AT-lock arm that does not break; any other operator on the last arm,
      `default`, which accepts the default six and breaks. */
  function CaseLabel(op: Operator): (i: nat)
    ensures i < |OperatorSwitch|
    ensures op == SprUs ==> OperatorSwitch[i] == Arm({PortLock}, true)
    ensures op == VzwPostpaid || op == VzwPrepaid ==>
      VzwAtLock in OperatorSwitch[i].accepts && !OperatorSwitch[i].breaks
    ensures op == OtherOperator ==>
      i == |OperatorSwitch| - 1 && OperatorSwitch[i] == Arm(DefaultOpcodes, true)
  {
    match op
    case SprUs => 0
    case VzwPostpaid | VzwPrepaid => 1
    case OtherOperator => 2
  }

  /** No arm from `from` up to (not including) `to` ends in `break`. */
  predicate FallsThrough(arms: seq<Arm>, from: nat, to: nat)
    requires from <= to <= |arms|
  {
    forall k :: from <= k < to ==> !arms[k].breaks
  }

  /** Executes a switch from arm i for one opcode, the way C does: return
      true if this arm accepts it, stop at a `break`, otherwise fall into the
      next arm; running off the end returns false. */
  function RunSwitch(arms: seq<Arm>, i: nat, opcode: byte): (r: bool)
    requires i <= |arms|
    ensures r <==> exists j :: i <= j < |arms| && opcode in arms[j].accepts && FallsThrough(arms, i, j)
    decreases |arms| - i
  {
    if i == |arms| then false
    else if opcode in arms[i].accepts then true
    else if arms[i].breaks then false
    else
      var r := RunSwitch(arms, i + 1, opcode);
      assert r ==> exists j :: i <= j < |arms| && opcode in arms[j].accepts && FallsThrough(arms, i, j) by {
        if r {
          var j :| i + 1 <= j < |arms| && opcode in arms[j].accepts && FallsThrough(arms, i + 1, j);
          assert FallsThrough(arms, i, j);
        }
      }
      r
  }

  /** The one-binary switch allows, for each operator, exactly that
      operator's policy: the VZW fall-through adds the default six. */
  lemma OperatorSwitchMatchesPolicy(op: Operator, opcode: byte)
    ensures RunSwitch(OperatorSwitch, CaseLabel(op), opcode) <==> opcode in OperatorPolicy(op)
  {
  }

  /** The non-one-binary configuration whose allowed_commands[] corresponds
      to this operator: Sprint, Verizon, or neither. */
  function DedicatedBuild(op: Operator): (cfg: Config)
    ensures !cfg.oneBinary && !cfg.factory
    ensures cfg.spr <==> op == SprUs
  {
    match op
    case SprUs => Config(true, false, false, false)
    case VzwPostpaid | VzwPrepaid => Config(false, true, false, false)
    case OtherOperator => Config(false, false, false, false)
  }

  /** The one-binary switch, fall-through included, allows for each operator
      exactly what allowed_commands[] holds in that operator's dedicated build. */
  lemma OneBinaryMatchesDedicatedBuilds(op: Operator, opcode: byte)
    ensures RunSwitch(OperatorSwitch, CaseLabel(op), opcode) <==>
            opcode in AllowedCommands(DedicatedBuild(op))
  {
    OperatorSwitchMatchesPolicy(op, opcode);
  }

  /** Port lock (0xA1) survives the lock in every build and for every
      operator, so no locked policy is empty. */
  lemma PortLockAlwaysAllowed(cfg: Config, op: Operator)
    ensures PortLock in LockedPolicy(cfg, op)
  {
  }

  /** The Verizon AT-lock opcode is allowed while locked exactly for Verizon:
      a Verizon operator in a one-binary build, or a VZW non-Sprint build. */
  lemma VzwAtLockOnlyForVerizon(cfg: Config, op: Operator)
    ensures VzwAtLock in LockedPolicy(cfg, op) <==>
      if cfg.oneBinary then op == VzwPostpaid || op == VzwPrepaid
      else !cfg.spr && cfg.vzw
  {
  }
}
