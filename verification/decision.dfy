/** The two exported queries of the diagnostic-lock driver:
    diag_lock_is_allowed (is the port open at all?) and
    diag_lock_is_allowed_command (may this command buffer run?). */
module Decision {
  import opened DiagTypes
  import opened AllowList

  /** The factory exemption, compiled only with CONFIG_LGE_USB_FACTORY and
      without CONFIG_LGE_USB_DIAG_LOCK_SPR: a factory boot of any operator but
      Sprint US opens the port whatever the lock state. */
  predicate FactoryExempt(cfg: Config, p: Platform) {
    cfg.factory && !cfg.spr && p.factoryBoot && p.operator != SprUs
  }

  /** diag_lock_is_allowed. */
  function IsAllowed(cfg: Config, p: Platform, st: LockState): (r: bool)
    ensures st == Unlock ==> r
    ensures FactoryExempt(cfg, p) ==> r
    ensures !FactoryExempt(cfg, p) ==> (r <==> st == Unlock)
    ensures r ==> st == Unlock || (cfg.factory && p.factoryBoot)
  {
    if cfg.factory && !cfg.spr && p.factoryBoot && p.operator != SprUs then true
    else st == Unlock
  }

  /** A command buffer: None is a null pointer, Some(cmd) the bytes it
      points to. The driver reads cmd[0] without a length, so a non-null
      buffer holds at least one byte. */
  predicate WellFormed(buf: Option<seq<byte>>) {
    buf.Some? ==> |buf.value| > 0
  }

  /** What the gate promises: never a null buffer; any command while the port
      is open; otherwise exactly the opcodes of the locked policy for this
      build and operator. */
  predicate Permitted(cfg: Config, p: Platform, st: LockState, buf: Option<seq<byte>>)
    requires WellFormed(buf)
  {
    match buf
    case None => false
    case Some(cmd) => IsAllowed(cfg, p, st) || cmd[0] in LockedPolicy(cfg, p.operator)
  }

  /** diag_lock_is_allowed_command: the null check, then the open gate, then
      the operator switch (one-binary builds) or the scan of
      allowed_commands[] (other builds). */
  method IsAllowedCommand(cfg: Config, p: Platform, st: LockState, buf: Option<seq<byte>>)
    returns (allowed: bool)
    requires WellFormed(buf)
    ensures allowed <==> Permitted(cfg, p, st, buf)
    ensures buf.None? ==> !allowed
    ensures buf.Some? && IsAllowed(cfg, p, st) ==> allowed
    ensures buf.Some? && !IsAllowed(cfg, p, st) ==>
      (allowed <==> buf.value[0] in LockedPolicy(cfg, p.operator))
  {
    if buf.None? {
      return false;
    }
    var cmd := buf.value;
    if IsAllowed(cfg, p, st) {
      return true;
    }
    if cfg.oneBinary {
      allowed := RunSwitch(OperatorSwitch, CaseLabel(p.operator), cmd[0]);
      OperatorSwitchMatchesPolicy(p.operator, cmd[0]);
    } else {
      allowed := ScanAllowedCommands(AllowedCommands(cfg), cmd[0]);
    }
  }

  /** Unlocking never takes a command away: whatever is allowed while locked
      is allowed while unlocked, and unlocked allows every non-null buffer. */
  lemma UnlockAllowsAll(cfg: Config, p: Platform, cmd: seq<byte>)
    requires |cmd| > 0
    ensures Permitted(cfg, p, Unlock, Some(cmd))
    ensures Permitted(cfg, p, Lock, Some(cmd)) ==> Permitted(cfg, p, Unlock, Some(cmd))
  {
  }

  /** While locked, for every build and platform, the first byte alone
      decides; the bytes after it never matter. */
  lemma OnlyOpcodeMatters(cfg: Config, p: Platform, cmd1: seq<byte>, cmd2: seq<byte>)
    requires |cmd1| > 0 && |cmd2| > 0 && cmd1[0] == cmd2[0]
    ensures Permitted(cfg, p, Lock, Some(cmd1)) <==> Permitted(cfg, p, Lock, Some(cmd2))
  {
  }

  /** The default carrier of an ordinary build, locked, no factory boot:
      testmode reset (0x29) passes, opcode 0x05 does not. */
  lemma DefaultBuildScenario()
    ensures var cfg := Config(false, false, false, false);
            var p := Platform(false, OtherOperator);
            Permitted(cfg, p, Lock, Some([0x29])) && !Permitted(cfg, p, Lock, Some([0x05]))
  {
  }

  /** A Sprint build, locked: only port lock passes, even on a factory boot. */
  lemma SprintBuildScenario(factoryBoot: bool, op: Operator)
    ensures var cfg := Config(true, false, false, true);
            var p := Platform(factoryBoot, op);
            !Permitted(cfg, p, Lock, Some([0x29])) && Permitted(cfg, p, Lock, Some([0xA1]))
  {
  }

  /** A one-binary build, locked: an operator the switch does not name falls
      back to the default six (web download 0xEF passes), and a Verizon
      operator gets the default six as well as 0xF8 through the fall-through. */
  lemma OneBinaryScenario()
    ensures var cfg := Config(false, false, true, false);
            && Permitted(cfg, Platform(false, OtherOperator), Lock, Some([0xEF]))
            && !Permitted(cfg, Platform(false, OtherOperator), Lock, Some([0xF8]))
            && Permitted(cfg, Platform(false, VzwPrepaid), Lock, Some([0xF8]))
            && Permitted(cfg, Platform(false, VzwPostpaid), Lock, Some([0x29]))
            && !Permitted(cfg, Platform(false, SprUs), Lock, Some([0x29]))
  {
  }
}
