/** How the lock state is seeded at module load: it starts LOCK and, in
    builds whose lock is decided by Sprint's provisioning, is replaced by the
    `diag_enable` byte of the SMEM_ID_VENDOR0 record. */
module Boot {
  import opened DiagTypes
  import opened AllowList
  import opened Decision

  /** What smem_get_entry(SMEM_ID_VENDOR0, ...) hands back when it succeeds:
      the size it reports and the record's `diag_enable` byte. The rest of
      the record is never read. */
  datatype VendorRecord = VendorRecord(size: nat, diagEnable: byte)

  /** The initial value of diag_lock_state. */
  const DefaultState: LockState := Lock

  /** get_diag_lock_state_from_smem: an absent or erroneous entry reads as
      LOCK; otherwise a nonzero `diag_enable` is UNLOCK. A size that differs
      from the record layout only raises a warning, so it never changes the
      answer. */
  function StateFromSmem(entry: Option<VendorRecord>): (st: LockState)
    ensures st == Unlock <==> entry.Some? && entry.value.diagEnable != 0
    ensures entry.None? ==> st == DefaultState
  {
    match entry
    case None => Lock
    case Some(rec) => if rec.diagEnable != 0 then Unlock else Lock
  }

  /** The builds and operators whose lock state comes from SMEM: a
      one-binary build running as Sprint US, or a Sprint build. */
  predicate SeedsFromSmem(cfg: Config, op: Operator) {
    if cfg.oneBinary then op == SprUs else cfg.spr
  }

  /** The state-seeding part of diag_lock_init. */
  function InitialState(cfg: Config, op: Operator, entry: Option<VendorRecord>): (st: LockState)
    ensures SeedsFromSmem(cfg, op) ==> st == StateFromSmem(entry)
    ensures !SeedsFromSmem(cfg, op) ==> st == DefaultState
    ensures st == Unlock ==> entry.Some? && entry.value.diagEnable != 0
  {
    if cfg.oneBinary then
      if op == SprUs then StateFromSmem(entry) else DefaultState
    else if cfg.spr then StateFromSmem(entry)
    else DefaultState
  }

  /** The record's reported size never influences the seeded state. */
  lemma SizeIsIgnored(cfg: Config, op: Operator, r1: VendorRecord, r2: VendorRecord)
    requires r1.diagEnable == r2.diagEnable
    ensures InitialState(cfg, op, Some(r1)) == InitialState(cfg, op, Some(r2))
  {
  }

  /** The boot scenarios of a Sprint build: diag_enable 1 boots unlocked,
      diag_enable 0 boots locked, and a missing record boots locked. */
  lemma SprintBootScenarios(size: nat)
    ensures var cfg := Config(true, false, false, false);
            && InitialState(cfg, OtherOperator, Some(VendorRecord(size, 1))) == Unlock
            && InitialState(cfg, OtherOperator, Some(VendorRecord(size, 0))) == Lock
            && InitialState(cfg, OtherOperator, None) == Lock
  {
  }

  /** Right after boot, without the factory exemption and without an
      enabling SMEM record, only the locked policy's opcodes pass. */
  lemma BootGateIsPolicy(cfg: Config, p: Platform, entry: Option<VendorRecord>, cmd: seq<byte>)
    requires |cmd| > 0
    requires !FactoryExempt(cfg, p)
    requires entry.None? || entry.value.diagEnable == 0
    ensures Permitted(cfg, p, InitialState(cfg, p.operator, entry), Some(cmd))
            <==> cmd[0] in LockedPolicy(cfg, p.operator)
  {
  }
}
