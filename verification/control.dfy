/** The mutators of the lock state: diag_lock_set_allowed for trusted kernel
    callers and the `diag_enable` sysfs attribute (diag_enable_show /
    diag_enable_store), together with the text conversions they rely on. */
module Control {
  import opened DiagTypes

  /** The errno value behind -EINVAL. */
  const EINVAL: int := 22

  /** diag_lock_set_allowed is compiled only in Sprint and one-binary builds. */
  predicate SetterAvailable(cfg: Config) {
    cfg.spr || cfg.oneBinary
  }

  /** diag_lock_set_allowed: overwrites the state with the bool it is given,
      whatever the state was. */
  function SetAllowed(cfg: Config, st: LockState, allowed: bool): (st': LockState)
    requires SetterAvailable(cfg)
    ensures st' == Unlock <==> allowed
    ensures Code(st') == if allowed then 1 else 0
  {
    FromBool(allowed)
  }

  /** The setter forgets the previous state, so calling it twice with the
      same argument is the same as calling it once. */
  lemma SetAllowedIdempotent(cfg: Config, st: LockState, allowed: bool)
    requires SetterAvailable(cfg)
    ensures SetAllowed(cfg, SetAllowed(cfg, st, allowed), allowed) == SetAllowed(cfg, st, allowed)
    ensures SetAllowed(cfg, Lock, allowed) == SetAllowed(cfg, Unlock, allowed)
  {
  }

  // ---------------------------------------------------------------------
  // Decimal text, as printed by "%d" and read back by sscanf's "%d"

  /** The kernel's isspace on ASCII: space, \t, \n, \v, \f and \r. */
  predicate IsSpace(c: char) {
    c == ' ' || '\t' <= c <= '\r'
  }

  predicate IsDigit(c: char) {
    '0' <= c <= '9'
  }

  predicate AllDigits(s: string) {
    forall i :: 0 <= i < |s| ==> IsDigit(s[i])
  }

  /** The text left once leading white space is skipped. */
  function SkipSpaces(s: string): (t: string)
    ensures |t| <= |s| && t == s[|s| - |t|..]
    ensures forall i :: 0 <= i < |s| - |t| ==> IsSpace(s[i])
    ensures |t| > 0 ==> !IsSpace(t[0])
  {
    if |s| > 0 && IsSpace(s[0]) then SkipSpaces(s[1..]) else s
  }

  /** The length of the run of decimal digits that starts s. */
  function DigitRun(s: string): (n: nat)
    ensures n <= |s|
    ensures AllDigits(s[..n])
    ensures n < |s| ==> !IsDigit(s[n])
  {
    if |s| > 0 && IsDigit(s[0]) then
      var n := 1 + DigitRun(s[1..]);
      assert s[..n] == [s[0]] + s[1..][..n - 1];
      n
    else 0
  }

  /** The value of a string of decimal digits, most significant first. */
  function DecimalValue(ds: string): nat
    requires AllDigits(ds)
  {
    if |ds| == 0 then 0
    else 10 * DecimalValue(ds[..|ds| - 1]) + (ds[|ds| - 1] as int - '0' as int)
  }

  /** The conversion sscanf(buff, "%d", &enabled) performs in the kernel:
      skip white space, take an optional '-' (the kernel does not accept
      '+'), then the longest run of decimal digits; with no digit there the
      conversion fails and sscanf returns 0. */
  function ScanDecimal(s: string): Option<int> {
    ScanSigned(SkipSpaces(s))
  }

  /** Text that starts with a digit, or with '-' and then a digit. */
  predicate StartsNumber(t: string) {
    |t| > 0 && (IsDigit(t[0]) || (t[0] == '-' && |t| > 1 && IsDigit(t[1])))
  }

  /** The conversion once white space is skipped: an optional '-', then the
      digits. */
  function ScanSigned(t: string): Option<int> {
    if |t| > 0 && t[0] == '-' then
      match ScanDigits(t[1..])
      case None => None
      case Some(v) => Some(0 - v)
    else
      match ScanDigits(t)
      case None => None
      case Some(v) => Some(v)
  }

  /** The value of the digit run that starts u; there is one exactly when u
      starts with a digit. */
  function ScanDigits(u: string): (r: Option<nat>)
    ensures r.Some? <==> |u| > 0 && IsDigit(u[0])
    ensures r.Some? ==> r.value == DecimalValue(u[..DigitRun(u)])
  {
    var n := DigitRun(u);
    if n == 0 then None else Some(DecimalValue(u[..n]))
  }

  function DigitChar(d: int): (c: char)
    requires 0 <= d < 10
    ensures IsDigit(c) && c as int - '0' as int == d
  {
    ('0' as int + d) as char
  }

  /** The decimal digits of a natural number, without leading zeros. */
  function Digits(n: nat): (s: string)
    ensures |s| > 0 && AllDigits(s)
    ensures |s| > 1 ==> s[0] != '0'
    decreases n
  {
    if n < 10 then [DigitChar(n)] else Digits(n / 10) + [DigitChar(n % 10)]
  }

  /** What printf's "%d" prints for an integer. */
  function FormatDecimal(n: int): string {
    if n < 0 then "-" + Digits(-n) else Digits(n)
  }

  /** The conversion succeeds exactly when, after the white space, the text
      starts with a digit or with '-' and a digit; a leading '-' gives a
      value of at most 0, anything else a value of at least 0. */
  lemma ScanSignedAccepts(t: string)
    ensures ScanSigned(t).Some? <==> StartsNumber(t)
    ensures ScanSigned(t).Some? && t[0] == '-' ==> ScanSigned(t).value <= 0
    ensures ScanSigned(t).Some? && t[0] != '-' ==> ScanSigned(t).value >= 0
  {
  }

  /** sscanf's "%d" fails, and diag_enable_store refuses the write, exactly
      when the text after its leading white space starts with neither a
      digit nor '-' and a digit. */
  lemma ScanDecimalAccepts(s: string)
    ensures ScanDecimal(s).Some? <==> StartsNumber(SkipSpaces(s))
  {
    ScanSignedAccepts(SkipSpaces(s));
  }

  /** "%d" prints a sign exactly for negative values, and decimal digits
      after it. */
  lemma FormatDecimalShape(n: int)
    ensures |FormatDecimal(n)| > 0 && (FormatDecimal(n)[0] == '-' <==> n < 0)
    ensures n >= 0 ==> AllDigits(FormatDecimal(n))
    ensures n < 0 ==> |FormatDecimal(n)| > 1 && AllDigits(FormatDecimal(n)[1..])
  {
    if n < 0 {
      assert FormatDecimal(n)[1..] == Digits(-n);
    }
  }

  lemma {:induction false} DecimalValueOfDigits(n: nat)
    ensures DecimalValue(Digits(n)) == n
    decreases n
  {
    if n >= 10 {
      var ds := Digits(n);
      assert ds[..|ds| - 1] == Digits(n / 10);
      DecimalValueOfDigits(n / 10);
    }
  }

  /** A run of digits ends where the digits do. */
  lemma DigitRunOfDigits(ds: string, rest: string)
    requires AllDigits(ds)
    requires |rest| == 0 || !IsDigit(rest[0])
    ensures DigitRun(ds + rest) == |ds|
    ensures (ds + rest)[..|ds|] == ds
  {
  }

  /** Text that does not start with white space has none to skip. */
  lemma NothingToSkip(s: string)
    requires |s| > 0 && !IsSpace(s[0])
    ensures ScanDecimal(s) == ScanSigned(s)
  {
    assert SkipSpaces(s) == s;
  }

  /** Text that starts with a digit converts to the value of its leading
      digit run. */
  lemma ScanUnsigned(u: string)
    requires |u| > 0 && IsDigit(u[0])
    ensures ScanDecimal(u) == Some(DecimalValue(u[..DigitRun(u)]) as int)
  {
    NothingToSkip(u);
  }

  /** A minus sign followed by digits, once white space is skipped. */
  lemma ScanSignedNegative(u: string)
    requires |u| > 0 && IsDigit(u[0])
    ensures ScanSigned(['-'] + u) == Some(0 - DecimalValue(u[..DigitRun(u)]))
  {
    var s := ['-'] + u;
    assert s[0] == '-' && s[1..] == u;
  }

  /** A minus sign followed by a digit converts to the negated value of the
      digit run. */
  lemma ScanNegative(u: string)
    requires |u| > 0 && IsDigit(u[0])
    ensures ScanDecimal(['-'] + u) == Some(0 - DecimalValue(u[..DigitRun(u)]))
  {
    var s := ['-'] + u;
    assert s[0] == '-';
    NothingToSkip(s);
    ScanSignedNegative(u);
  }

  /** Reading back what "%d" printed gives the same integer, whatever
      non-digit text follows it (such as the newline `echo` appends). */
  lemma ScanFormatted(n: int, rest: string)
    requires |rest| == 0 || !IsDigit(rest[0])
    ensures ScanDecimal(FormatDecimal(n) + rest) == Some(n)
  {
    var m := if n < 0 then -n else n;
    var ds := Digits(m);
    var u := ds + rest;
    DigitRunOfDigits(ds, rest);
    DecimalValueOfDigits(m);
    assert IsDigit(u[0]);
    if n < 0 {
      assert FormatDecimal(n) + rest == ['-'] + u;
      ScanNegative(u);
    } else {
      assert FormatDecimal(n) + rest == u;
      ScanUnsigned(u);
    }
  }

  /** Truncation of a parsed integer to the 32-bit `int enabled`, two's
      complement, as the kernel's conversion stores it. */
  function Int32(v: int): (r: int)
    ensures -0x8000_0000 <= r < 0x8000_0000
    ensures (v - r) % 0x1_0000_0000 == 0
  {
    var m := v % 0x1_0000_0000;
    if m >= 0x8000_0000 then m - 0x1_0000_0000 else m
  }

  // ---------------------------------------------------------------------
  // The diag_enable sysfs attribute

  /** diag_enable_show: prints, with "%d", whether the state is UNLOCK. */
  function Show(st: LockState): (text: string)
    ensures text == (if st == Unlock then "1" else "0")
    ensures ScanDecimal(text) == Some(Code(st))
  {
    var r := FormatDecimal(if st == Unlock then 1 else 0);
    ScanFormatted(Code(st), "");
    assert FormatDecimal(Code(st)) + "" == r;
    r
  }

  /** What diag_enable_store returns (the byte count or a negative errno)
      and the state it leaves behind. */
  datatype StoreOutcome = StoreOutcome(ret: int, state: LockState)

  /** diag_enable_store: text that does not convert is refused with -EINVAL
      and changes nothing; otherwise a nonzero value unlocks, zero locks, and
      the whole write of `size` bytes is reported consumed. */
  function Store(st: LockState, buff: string, size: nat): (out: StoreOutcome)
    ensures ScanDecimal(buff).None? ==> out == StoreOutcome(-EINVAL, st)
    ensures ScanDecimal(buff).Some? ==> out.ret == size
    ensures ScanDecimal(buff).Some? ==>
      (out.state == Unlock <==> ScanDecimal(buff).value % 0x1_0000_0000 != 0)
  {
    match ScanDecimal(buff)
    case None => StoreOutcome(-EINVAL, st)
    case Some(v) =>
      var enabled := Int32(v);
      StoreOutcome(size, FromBool(enabled != 0))
  }

  /** Writing back what was read restores the state it showed, from any
      prior state. */
  lemma ShowStoreRoundTrip(shown: LockState, prior: LockState, size: nat)
    ensures Store(prior, Show(shown), size) == StoreOutcome(size, shown)
  {
  }

  /** `echo n > diag_enable` followed by a read: the state is UNLOCK exactly
      when n is nonzero as a 32-bit int, and a read then prints "1", else "0". */
  lemma EchoThenShow(prior: LockState, n: int, size: nat)
    ensures var out := Store(prior, FormatDecimal(n) + "\n", size);
            && out.ret == size
            && Show(out.state) == (if n % 0x1_0000_0000 != 0 then "1" else "0")
  {
    ScanFormatted(n, "\n");
  }

  /** The concrete toggles: writing "1" then reading gives "1", and writing
      "0" then reading gives "0". */
  lemma WriteThenRead(prior: LockState, size: nat)
    ensures Show(Store(prior, "1", size).state) == "1"
    ensures Show(Store(prior, "0", size).state) == "0"
  {
    ShowStoreRoundTrip(Unlock, prior, size);
    ShowStoreRoundTrip(Lock, prior, size);
  }

  /** Text with no digit where one is expected is refused and leaves the
      state as it was: "abc", and "+1" since the kernel's "%d" takes no plus
      sign. */
  lemma RefusedWrites(prior: LockState, size: nat)
    ensures Store(prior, "abc", size) == StoreOutcome(-EINVAL, prior)
    ensures Store(prior, "+1", size) == StoreOutcome(-EINVAL, prior)
  {
    assert SkipSpaces("abc") == "abc";
    assert DigitRun("abc") == 0;
    assert ScanDecimal("abc") == None;
    assert SkipSpaces("+1") == "+1";
    assert DigitRun("+1") == 0;
    assert ScanDecimal("+1") == None;
  }

  // ---------------------------------------------------------------------
  // The lock state as a two-state machine

  /** The calls that reach the lock state after boot. */
  datatype Event =
    | SetAllowedCall(allowed: bool)
    | SysfsWrite(text: string, size: nat)
    | SysfsRead

  /** Whether every event can happen in this build. */
  predicate Available(cfg: Config, evs: seq<Event>) {
    forall i :: 0 <= i < |evs| ==> evs[i].SetAllowedCall? ==> SetterAvailable(cfg)
  }

  /** The state after one event. */
  function Step(cfg: Config, st: LockState, ev: Event): LockState
    requires ev.SetAllowedCall? ==> SetterAvailable(cfg)
  {
    match ev
    case SetAllowedCall(allowed) => SetAllowed(cfg, st, allowed)
    case SysfsWrite(text, size) => Store(st, text, size).state
    case SysfsRead => st
  }

  /** The state after a sequence of events, applied first to last. */
  function Run(cfg: Config, st: LockState, evs: seq<Event>): LockState
    requires Available(cfg, evs)
    decreases |evs|
  {
    if |evs| == 0 then st
    else
      var init := evs[..|evs| - 1];
      assert Available(cfg, init) by {
        forall i | 0 <= i < |init| ensures init[i].SetAllowedCall? ==> SetterAvailable(cfg) {
          assert init[i] == evs[i];
        }
      }
      Step(cfg, Run(cfg, st, init), evs[|evs| - 1])
  }

  /** An event that overwrites the state: a setter call, or a sysfs write
      whose text converts. Reads and refused writes change nothing. */
  predicate Overwrites(ev: Event) {
    ev.SetAllowedCall? || (ev.SysfsWrite? && ScanDecimal(ev.text).Some?)
  }

  /** The state an overwriting event leaves, independent of the state before. */
  function Written(ev: Event): LockState
    requires Overwrites(ev)
  {
    match ev
    case SetAllowedCall(allowed) => FromBool(allowed)
    case SysfsWrite(text, size) => FromBool(Int32(ScanDecimal(text).value) != 0)
  }

  /** Every event either overwrites the state with a value of its own or
      leaves it alone. */
  lemma StepOverwritesOrKeeps(cfg: Config, st: LockState, ev: Event)
    requires ev.SetAllowedCall? ==> SetterAvailable(cfg)
    ensures Overwrites(ev) ==> Step(cfg, st, ev) == Written(ev)
    ensures !Overwrites(ev) ==> Step(cfg, st, ev) == st
  {
  }

  /** The events before the last one are available whenever all are. */
  lemma AvailablePrefix(cfg: Config, evs: seq<Event>, n: nat)
    requires Available(cfg, evs) && n <= |evs|
    ensures Available(cfg, evs[..n])
  {
    forall i | 0 <= i < n ensures evs[..n][i].SetAllowedCall? ==> SetterAvailable(cfg) {
      assert evs[..n][i] == evs[i];
    }
  }

  /** Reads and refused writes alone never change the state. */
  lemma {:induction false} NoWriteKeepsState(cfg: Config, st: LockState, evs: seq<Event>)
    requires Available(cfg, evs)
    requires forall i :: 0 <= i < |evs| ==> !Overwrites(evs[i])
    ensures Run(cfg, st, evs) == st
    decreases |evs|
  {
    if |evs| > 0 {
      var n := |evs| - 1;
      var init := evs[..n];
      AvailablePrefix(cfg, evs, n);
      forall i | 0 <= i < n ensures !Overwrites(init[i]) {
        assert init[i] == evs[i];
      }
      NoWriteKeepsState(cfg, st, init);
      assert Run(cfg, st, evs) == Step(cfg, st, evs[n]);
      StepOverwritesOrKeeps(cfg, st, evs[n]);
    }
  }

  /** Last write wins: if evs[k] overwrites the state and nothing after it
      does, the state at the end is the one evs[k] wrote, whatever came
      before. */
  lemma {:induction false} LastWriteWins(cfg: Config, st: LockState, evs: seq<Event>, k: nat)
    requires Available(cfg, evs)
    requires k < |evs| && Overwrites(evs[k])
    requires forall j :: k < j < |evs| ==> !Overwrites(evs[j])
    ensures Run(cfg, st, evs) == Written(evs[k])
    decreases |evs|
  {
    var n := |evs| - 1;
    var init := evs[..n];
    var last := evs[n];
    AvailablePrefix(cfg, evs, n);
    var before := Run(cfg, st, init);
    assert Run(cfg, st, evs) == Step(cfg, before, last);
    StepOverwritesOrKeeps(cfg, before, last);
    if k < n {
      assert !Overwrites(last);
      assert init[k] == evs[k];
      forall j | k < j < n ensures !Overwrites(init[j]) {
        assert init[j] == evs[j];
      }
      LastWriteWins(cfg, st, init, k);
    }
  }
}
