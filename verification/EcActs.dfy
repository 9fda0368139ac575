/**
 * What each hardware operation of daemon/src/ec/hw does, as a list of atomic actions: register
 * writes and stores to the LED flag, in the order of the code. An operation cut short by an I/O
 * error has done a prefix of its list.
 */
module EcActs {
  import opened Bytes
  import opened EcPort
  import opened EcRegs
  import opened Settings

  datatype Act = Write(reg: Reg, val: byte) | StoreFlag(on: bool)

  /** Chip memory and `IS_LED_ALREADY_CUSTOM`. */
  datatype Ec = Ec(mem: Memory, ledCustom: bool) {
    function At(t: Table, reg: Reg): byte { mem[t(reg)] }
  }

  function DoAct(t: Table, e: Ec, a: Act): Ec {
    match a
    case Write(reg, val) => e.(mem := e.mem[t(reg) := val])
    case StoreFlag(on) => e.(ledCustom := on)
  }

  function Do(t: Table, e: Ec, acts: seq<Act>): Ec {
    if acts == [] then e else DoAct(t, Do(t, e, acts[..|acts| - 1]), acts[|acts| - 1])
  }

  // ---- The operations ----

  function KeyboardActs(level: KeyboardLevel): seq<Act> {
    match level
    case Off => [Write(Kbd, 0x00)]
    case Low => [Write(Kbd, 0x01)]
    case Medium => [Write(Kbd, 0x02)]
    case High => [Write(Kbd, 0x03)]
    case Custom(v) => [Write(KbdTimeout, 0xFF), Write(A4Mux, 0x00), Write(Kbd, 0xFF), Write(KbdVal, v)]
  }

  const RESET_ENGINE: seq<Act> := [Write(BreathEn, 0x00), Write(Prescaler, 0x00), Write(Cycle, 0xFF)]

  const TAKE_OVER: seq<Act> := [Write(Bypass, 0x01), Write(A0Mux, 0x00), StoreFlag(true)]

  function BreathActs(c: BreathConfig): seq<Act> {
    [Write(Prescaler, 0x00), Write(Cycle, 0xFF),
     Write(BreathStepReg, c.StepByte()), Write(BreathDelayReg, c.DelayByte()), Write(BreathEn, 0x01)]
  }

  function LedActs(alreadyCustom: bool, mode: PowerLedMode): seq<Act> {
    var takeOver := if alreadyCustom then [] else TAKE_OVER;
    match mode
    case Auto => [Write(Bypass, 0x00)] + RESET_ENGINE + [StoreFlag(false)]
    case Custom(b) => takeOver + RESET_ENGINE + [Write(LedDuty, b)]
    case Animation(c) => takeOver + RESET_ENGINE + BreathActs(c)
  }

  function ProfileActs(p: PowerProfile): seq<Act> { [Write(Power, p.Code())] }

  function ChargeActs(limit: ChargeLimit): seq<Act> {
    [Write(LimitMin, limit.AsPercent().0), Write(LimitMax, limit.AsPercent().1)]
  }

  const MAX_DUTY: byte := 220

  predicate FanAllowed(mode: FanMode) {
    mode.Custom? ==> mode.duty <= MAX_DUTY
  }

  function FanPair(mode: FanMode): (byte, byte) {
    match mode
    case Auto => (0x00, 0)
    case Full => (0x40, 150)
    case Custom(d) => (0x40, d)
  }

  function FanActs(fan: FanIndex, mode: FanMode): seq<Act> {
    [Write(Policy(fan), FanPair(mode).0), Write(Duty(fan), FanPair(mode).1)]
  }

  const ORANGE_LED: byte := 0x02
  const WHITE_LED: byte := 0x04

  /** `b & !mask` and `b | mask` for a one-bit mask. */
  function Masked(b: byte, mask: byte, on: bool): byte
    requires mask in {ORANGE_LED, WHITE_LED}
  {
    var high := (b / mask) % 2 == 1;
    if on then (if high then b - mask else b)   // On pulls the pin low
    else (if high then b else b + mask)
  }

  function BatteryByte(port: byte, orange: bool, white: bool): byte {
    Masked(Masked(port, ORANGE_LED, orange), WHITE_LED, white)
  }

  lemma MaskedOrange(b: byte, on: bool)
    ensures Masked(b, ORANGE_LED, on) == 4 * (b / 4) + b % 2 + if on then 0 else 2
  {
    assert b == 4 * (b / 4) + 2 * ((b / 2) % 2) + b % 2;
  }

  lemma MaskedWhite(b: byte, on: bool)
    ensures Masked(b, WHITE_LED, on) == 8 * (b / 8) + b % 4 + if on then 0 else 4
  {
    assert b == 8 * (b / 8) + 4 * ((b / 4) % 2) + b % 4;
  }

  /** The battery LEDs are bits 1 and 2 of port A, low-active; the other bits keep their values. */
  lemma BatteryByteTouchesTwoBits(port: byte, orange: bool, white: bool)
    ensures BatteryByte(port, orange, white) ==
            8 * (port / 8) + (if white then 0 else 4) + (if orange then 0 else 2) + port % 2
  {
    MaskedOrange(port, orange);
    MaskedWhite(Masked(port, ORANGE_LED, orange), white);
  }

  lemma BitsOf(q: nat, w: nat, o: nat, r: nat)
    requires w <= 1 && o <= 1 && r <= 1
    ensures var b := 8 * q + 4 * w + 2 * o + r; b / 8 == q && b / 4 % 2 == w && b / 2 % 2 == o && b % 2 == r
  {
    var b := 8 * q + 4 * w + 2 * o + r;
    LowBit(4 * q + 2 * w + o, r);
    LowBit(2 * q + w, o);
    LowBit(q, w);
    Halves(b);
  }

  lemma LowBit(n: nat, bit: nat)
    requires bit <= 1
    ensures (2 * n + bit) / 2 == n && (2 * n + bit) % 2 == bit
  {
  }

  lemma Halves(b: nat)
    ensures b / 4 == b / 2 / 2 && b / 8 == b / 2 / 2 / 2
  {
  }

  /** Bit 1 is 0 exactly for orange on, bit 2 exactly for white on. */
  lemma BatteryBits(port: byte, orange: bool, white: bool)
    ensures var b := BatteryByte(port, orange, white);
            && b / 8 == port / 8 && (b / 4 % 2 == 0 <==> white) && (b / 2 % 2 == 0 <==> orange) && b % 2 == port % 2
  {
    BatteryByteTouchesTwoBits(port, orange, white);
    BitsOf(port / 8, if white then 0 else 1, if orange then 0 else 1, port % 2);
  }

  // ---- Running an operation, all of it or a prefix ----

  /** `after` is what a prefix of `acts` makes of `before`; the whole of it exactly when `ok`. */
  ghost predicate Partly(t: Table, before: Ec, after: Ec, acts: seq<Act>, ok: bool) {
    exists k: nat :: k <= |acts| && after == Do(t, before, acts[..k]) && (ok <==> k == |acts|)
  }

  lemma DoExtend(t: Table, e: Ec, acts: seq<Act>, k: nat)
    requires k < |acts|
    ensures Do(t, e, acts[..k + 1]) == DoAct(t, Do(t, e, acts[..k]), acts[k])
  {
    assert acts[..k + 1][..k] == acts[..k];
  }

  lemma {:induction false} DoAppend(t: Table, e: Ec, a: seq<Act>, b: seq<Act>)
    ensures Do(t, e, a + b) == Do(t, Do(t, e, a), b)
  {
    if b == [] {
      assert a + b == a;
    } else {
      DoAppend(t, e, a, b[..|b| - 1]);
      assert (a + b)[..|a + b| - 1] == a + b[..|b| - 1];
    }
  }

  lemma WholeRun(t: Table, before: Ec, after: Ec, acts: seq<Act>)
    requires Partly(t, before, after, acts, true)
    ensures after == Do(t, before, acts)
  {
    assert acts[..|acts|] == acts;
  }

  /** A whole `a` followed by part of `b` is part of `a + b`. */
  lemma PartlyAfter(t: Table, e0: Ec, e1: Ec, e2: Ec, a: seq<Act>, b: seq<Act>, ok: bool)
    requires e1 == Do(t, e0, a) && Partly(t, e1, e2, b, ok)
    ensures Partly(t, e0, e2, a + b, ok)
  {
    var k: nat :| k <= |b| && e2 == Do(t, e1, b[..k]) && (ok <==> k == |b|);
    DoAppend(t, e0, a, b[..k]);
    assert (a + b)[..|a| + k] == a + b[..k];
  }

  /** Failing inside `a` is failing inside `a + b`. */
  lemma PartlyBefore(t: Table, e0: Ec, e1: Ec, a: seq<Act>, b: seq<Act>)
    requires Partly(t, e0, e1, a, false)
    ensures Partly(t, e0, e1, a + b, false)
  {
    var k: nat :| k <= |a| && e1 == Do(t, e0, a[..k]) && k != |a|;
    assert (a + b)[..k] == a[..k];
  }

  // ---- What a run leaves in a register ----

  lemma WriteElsewhere(t: Table, e: Ec, a: Act, reg: Reg)
    requires Distinct(t) && (a.Write? ==> a.reg != reg)
    ensures DoAct(t, e, a).At(t, reg) == e.At(t, reg)
  {
  }

  lemma {:induction false} Untouched(t: Table, e: Ec, acts: seq<Act>, reg: Reg)
    requires Distinct(t)
    requires forall i :: 0 <= i < |acts| && acts[i].Write? ==> acts[i].reg != reg
    ensures Do(t, e, acts).At(t, reg) == e.At(t, reg)
  {
    if acts != [] {
      Untouched(t, e, acts[..|acts| - 1], reg);
      WriteElsewhere(t, Do(t, e, acts[..|acts| - 1]), acts[|acts| - 1], reg);
    }
  }

  lemma {:induction false} LastWriteWins(t: Table, e: Ec, acts: seq<Act>, k: nat)
    requires Distinct(t)
    requires k < |acts| && acts[k].Write?
    requires forall i :: k < i < |acts| && acts[i].Write? ==> acts[i].reg != acts[k].reg
    ensures Do(t, e, acts).At(t, acts[k].reg) == acts[k].val
  {
    if k < |acts| - 1 {
      LastWriteWins(t, e, acts[..|acts| - 1], k);
    }
  }

  lemma {:induction false} FlagUntouched(t: Table, e: Ec, acts: seq<Act>)
    requires forall i :: 0 <= i < |acts| ==> acts[i].Write?
    ensures Do(t, e, acts).ledCustom == e.ledCustom
  {
    if acts != [] {
      FlagUntouched(t, e, acts[..|acts| - 1]);
    }
  }

  lemma {:induction false} LastStoreWins(t: Table, e: Ec, acts: seq<Act>, k: nat)
    requires k < |acts| && acts[k].StoreFlag?
    requires forall i :: k < i < |acts| ==> acts[i].Write?
    ensures Do(t, e, acts).ledCustom == acts[k].on
  {
    if k < |acts| - 1 {
      LastStoreWins(t, e, acts[..|acts| - 1], k);
    }
  }

  lemma {:induction false} OutsideMemory(t: Table, e: Ec, acts: seq<Act>, addr: u16)
    requires forall i :: 0 <= i < |acts| && acts[i].Write? ==> t(acts[i].reg) != addr
    ensures Do(t, e, acts).mem[addr] == e.mem[addr]
  {
    if acts != [] {
      OutsideMemory(t, e, acts[..|acts| - 1], addr);
    }
  }

  /** Every write of the list belongs to one feature. */
  ghost predicate Within(acts: seq<Act>, f: Feature) {
    forall i :: 0 <= i < |acts| && acts[i].Write? ==> Owner(acts[i].reg) == f
  }

  lemma OperationsStayWithin(level: KeyboardLevel, flag: bool, mode: PowerLedMode, p: PowerProfile,
                             limit: ChargeLimit, fan: FanIndex, fanMode: FanMode)
    ensures Within(KeyboardActs(level), Keyboard)
    ensures Within(LedActs(flag, mode), Led)
    ensures Within(ProfileActs(p), Profile)
    ensures Within(ChargeActs(limit), Charge)
    ensures Within(FanActs(fan, fanMode), Fan(fan))
  {
    LedStaysWithin(flag, mode);
    KeyboardStaysWithin(level);
  }

  lemma WithinAppend(a: seq<Act>, b: seq<Act>, f: Feature)
    requires Within(a, f) && Within(b, f)
    ensures Within(a + b, f)
  {
  }

  lemma KeyboardStaysWithin(level: KeyboardLevel)
    ensures Within(KeyboardActs(level), Keyboard)
  {
  }

  lemma LedStaysWithin(flag: bool, mode: PowerLedMode)
    ensures Within(LedActs(flag, mode), Led)
  {
    var before := if flag then [] else TAKE_OVER;
    WithinAppend(before, RESET_ENGINE, Led);
    match mode {
      case Auto =>
        WithinAppend([Write(Bypass, 0x00)], RESET_ENGINE, Led);
        WithinAppend([Write(Bypass, 0x00)] + RESET_ENGINE, [StoreFlag(false)], Led);
      case Custom(b) => WithinAppend(before + RESET_ENGINE, [Write(LedDuty, b)], Led);
      case Animation(c) => WithinAppend(before + RESET_ENGINE, BreathActs(c), Led);
    }
  }

  /** A failing operation never disturbs the registers of another setting, wherever it stops. */
  lemma FaultIsolation(t: Table, before: Ec, after: Ec, acts: seq<Act>, ok: bool, f: Feature, reg: Reg)
    requires Distinct(t) && Within(acts, f) && Partly(t, before, after, acts, ok) && Owner(reg) != f
    ensures after.At(t, reg) == before.At(t, reg)
  {
    var k: nat :| k <= |acts| && after == Do(t, before, acts[..k]);
    Untouched(t, before, acts[..k], reg);
  }
}
