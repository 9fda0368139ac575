/**
 * The three copies of the configuration - chip registers, remembered settings, saved file - and the
 * hidden LED flag, over whole serial runs of the daemon without I/O errors.
 */
module Coherence {
  import opened Bytes
  import opened EcPort
  import opened EcActs
  import opened EcDevice
  import opened EcRegs
  import opened Messages
  import opened Settings
  import opened Daemon

  // ---- Registers that encode a setting ----

  ghost predicate LedShows(t: Table, e: Ec, mode: PowerLedMode) {
    match mode
    case Auto => e.At(t, Bypass) == 0 && e.At(t, BreathEn) == 0 && e.At(t, Prescaler) == 0 && e.At(t, Cycle) == 0xFF
    case Custom(b) =>
      && e.At(t, Bypass) == 1 && e.At(t, A0Mux) == 0
      && e.At(t, BreathEn) == 0 && e.At(t, Prescaler) == 0 && e.At(t, Cycle) == 0xFF && e.At(t, LedDuty) == b
    case Animation(c) =>
      && e.At(t, Bypass) == 1 && e.At(t, A0Mux) == 0
      && e.At(t, BreathEn) == 1 && e.At(t, Prescaler) == 0 && e.At(t, Cycle) == 0xFF
      && e.At(t, BreathStepReg) == c.StepByte() && e.At(t, BreathDelayReg) == c.DelayByte()
  }

  ghost predicate KeyboardShows(t: Table, e: Ec, level: KeyboardLevel) {
    && KeyboardOf(t, e) == Done(level)
    && (level.Custom? ==> e.At(t, KbdTimeout) == 0xFF && e.At(t, A4Mux) == 0)
  }

  function FanModeOf(s: CurrentSettings, fan: FanIndex): FanMode {
    match fan case Cpu => s.fanModeCpu case Gpu => s.fanModeGpu
  }

  ghost predicate Shows(t: Table, e: Ec, s: CurrentSettings, f: Feature) {
    match f
    case Keyboard => KeyboardShows(t, e, s.keyboardBacklight)
    case Led => LedShows(t, e, s.ledMode)
    case Profile => e.At(t, Power) == s.powerProfile.Code()
    case Charge => ChargeOf(t, e) == s.chargeLimit.AsPercent()
    case Fan(fan) => (e.At(t, Policy(fan)), e.At(t, Duty(fan))) == FanPair(FanModeOf(s, fan))
    case Other => true
  }

  /** The records agree except in the setting `f`. */
  ghost predicate SameBut(s: CurrentSettings, s': CurrentSettings, f: Feature) {
    && (f == Keyboard || s'.keyboardBacklight == s.keyboardBacklight)
    && (f == Led || s'.ledMode == s.ledMode)
    && (f == Profile || s'.powerProfile == s.powerProfile)
    && (f == Charge || s'.chargeLimit == s.chargeLimit)
    && (f == Fan(Cpu) || s'.fanModeCpu == s.fanModeCpu)
    && (f == Fan(Gpu) || s'.fanModeGpu == s.fanModeGpu)
  }

  lemma OtherSettingsShow(t: Table, e: Ec, s: CurrentSettings, s': CurrentSettings, f: Feature, g: Feature)
    requires SameBut(s, s', f) && g != f
    ensures Shows(t, e, s', g) <==> Shows(t, e, s, g)
  {
  }

  /** Every setting but the LED is what the registers say. */
  ghost predicate Coherent(t: Table, e: Ec, s: CurrentSettings) {
    forall f :: f != Led ==> Shows(t, e, s, f)
  }

  /** The cached flag may only be set while the two skipped registers hold what would be written. */
  ghost predicate FlagSound(t: Table, e: Ec) {
    e.ledCustom ==> e.At(t, Bypass) == 1 && e.At(t, A0Mux) == 0
  }

  // ---- Each operation establishes its own setting and leaves the others ----

  /** The two register states agree on everything that belongs to `g`. */
  ghost predicate SameRegs(t: Table, e: Ec, e': Ec, g: Feature) {
    forall reg :: Owner(reg) == g ==> e.At(t, reg) == e'.At(t, reg)
  }

  lemma SameLedShown(t: Table, e: Ec, e': Ec, mode: PowerLedMode)
    requires SameRegs(t, e, e', Led)
    ensures LedShows(t, e', mode) <==> LedShows(t, e, mode)
  {
    assert Owner(Bypass) == Owner(A0Mux) == Owner(Prescaler) == Owner(Cycle) == Led;
    assert Owner(LedDuty) == Owner(BreathEn) == Owner(BreathStepReg) == Owner(BreathDelayReg) == Led;
  }

  lemma SameKeyboardShown(t: Table, e: Ec, e': Ec, level: KeyboardLevel)
    requires SameRegs(t, e, e', Keyboard)
    ensures KeyboardShows(t, e', level) <==> KeyboardShows(t, e, level)
  {
    assert Owner(Kbd) == Owner(KbdVal) == Owner(KbdTimeout) == Owner(A4Mux) == Keyboard;
  }

  lemma SameRegsShowTheSame(t: Table, e: Ec, e': Ec, s: CurrentSettings, g: Feature)
    requires SameRegs(t, e, e', g)
    ensures Shows(t, e', s, g) <==> Shows(t, e, s, g)
  {
    match g {
      case Keyboard => SameKeyboardShown(t, e, e', s.keyboardBacklight);
      case Led => SameLedShown(t, e, e', s.ledMode);
      case Profile => assert Owner(Power) == g;
      case Charge => assert Owner(LimitMin) == Owner(LimitMax) == g;
      case Fan(x) => assert Owner(Policy(x)) == Owner(Duty(x)) == g;
      case Other =>
    }
  }

  lemma OtherRegsStay(t: Table, e: Ec, acts: seq<Act>, f: Feature, g: Feature)
    requires Distinct(t) && Within(acts, f) && g != f
    ensures SameRegs(t, e, Do(t, e, acts), g)
  {
    forall reg | Owner(reg) == g
      ensures e.At(t, reg) == Do(t, e, acts).At(t, reg)
    {
      Untouched(t, e, acts, reg);
    }
  }

  lemma FlagSoundStays(t: Table, e: Ec, acts: seq<Act>, f: Feature)
    requires Distinct(t) && Within(acts, f) && f != Led && (forall i :: 0 <= i < |acts| ==> acts[i].Write?)
    ensures Do(t, e, acts).ledCustom == e.ledCustom
    ensures FlagSound(t, Do(t, e, acts)) <==> FlagSound(t, e)
  {
    Untouched(t, e, acts, Bypass);
    Untouched(t, e, acts, A0Mux);
    FlagUntouched(t, e, acts);
  }

  lemma KeyboardEstablished(t: Table, e: Ec, level: KeyboardLevel)
    requires Distinct(t)
    ensures KeyboardShows(t, Do(t, e, KeyboardActs(level)), level)
  {
    var acts := KeyboardActs(level);
    if level.Custom? {
      LastWriteWins(t, e, acts, 0);
      LastWriteWins(t, e, acts, 1);
      LastWriteWins(t, e, acts, 2);
      LastWriteWins(t, e, acts, 3);
    } else {
      LastWriteWins(t, e, acts, 0);
    }
  }

  lemma ProfileEstablished(t: Table, e: Ec, p: PowerProfile)
    requires Distinct(t)
    ensures Do(t, e, ProfileActs(p)).At(t, Power) == p.Code()
  {
    LastWriteWins(t, e, ProfileActs(p), 0);
  }

  lemma ChargeEstablished(t: Table, e: Ec, c: ChargeLimit)
    requires Distinct(t)
    ensures ChargeOf(t, Do(t, e, ChargeActs(c))) == c.AsPercent()
  {
    LastWriteWins(t, e, ChargeActs(c), 0);
    LastWriteWins(t, e, ChargeActs(c), 1);
  }

  lemma FanEstablished(t: Table, e: Ec, fan: FanIndex, mode: FanMode)
    requires Distinct(t)
    ensures var e' := Do(t, e, FanActs(fan, mode)); (e'.At(t, Policy(fan)), e'.At(t, Duty(fan))) == FanPair(mode)
  {
    LastWriteWins(t, e, FanActs(fan, mode), 0);
    LastWriteWins(t, e, FanActs(fan, mode), 1);
  }

  lemma EngineReset(t: Table, e: Ec, b: byte)
    requires Distinct(t)
    ensures var e' := Do(t, e, LedActs(true, PowerLedMode.Custom(b)));
            e'.At(t, BreathEn) == 0 && e'.At(t, Prescaler) == 0 && e'.At(t, Cycle) == 0xFF && e'.At(t, LedDuty) == b
  {
    var acts := LedActs(true, PowerLedMode.Custom(b));
    assert acts == [Write(BreathEn, 0x00), Write(Prescaler, 0x00), Write(Cycle, 0xFF), Write(LedDuty, b)];
    LastWriteWins(t, e, acts, 0);
    LastWriteWins(t, e, acts, 1);
    LastWriteWins(t, e, acts, 2);
    LastWriteWins(t, e, acts, 3);
  }

  lemma BreathWrites(t: Table, e: Ec, c: BreathConfig)
    requires Distinct(t)
    ensures var e' := Do(t, e, BreathActs(c));
            && e'.At(t, BreathEn) == 1 && e'.At(t, Prescaler) == 0 && e'.At(t, Cycle) == 0xFF
            && e'.At(t, BreathStepReg) == c.StepByte() && e'.At(t, BreathDelayReg) == c.DelayByte()
  {
    var acts := BreathActs(c);
    LastWriteWins(t, e, acts, 0);
    LastWriteWins(t, e, acts, 1);
    LastWriteWins(t, e, acts, 2);
    LastWriteWins(t, e, acts, 3);
    LastWriteWins(t, e, acts, 4);
  }

  lemma EngineBreathes(t: Table, e: Ec, c: BreathConfig)
    requires Distinct(t)
    ensures var e' := Do(t, e, LedActs(true, Animation(c)));
            && e'.At(t, BreathEn) == 1 && e'.At(t, Prescaler) == 0 && e'.At(t, Cycle) == 0xFF
            && e'.At(t, BreathStepReg) == c.StepByte() && e'.At(t, BreathDelayReg) == c.DelayByte()
  {
    assert LedActs(true, Animation(c)) == RESET_ENGINE + BreathActs(c);
    DoAppend(t, e, RESET_ENGINE, BreathActs(c));
    BreathWrites(t, Do(t, e, RESET_ENGINE), c);
  }

  /** Plain writes to other registers than bypass and multiplexer. */
  ghost predicate Avoids(acts: seq<Act>) {
    forall i :: 0 <= i < |acts| ==> acts[i].Write? && acts[i].reg != Bypass && acts[i].reg != A0Mux
  }

  lemma AvoidsAppend(a: seq<Act>, b: seq<Act>)
    requires Avoids(a) && Avoids(b)
    ensures Avoids(a + b)
  {
  }

  lemma AvoidsKeeps(t: Table, e: Ec, acts: seq<Act>)
    requires Distinct(t) && Avoids(acts)
    ensures var e' := Do(t, e, acts);
            e'.ledCustom == e.ledCustom && e'.At(t, Bypass) == e.At(t, Bypass) && e'.At(t, A0Mux) == e.At(t, A0Mux)
  {
    Untouched(t, e, acts, Bypass);
    Untouched(t, e, acts, A0Mux);
    FlagUntouched(t, e, acts);
  }

  /** What a custom or animated mode does after the take-over. */
  lemma EngineAvoids(mode: PowerLedMode)
    requires !mode.Auto?
    ensures Avoids(LedActs(true, mode)) && LedActs(false, mode) == TAKE_OVER + LedActs(true, mode)
  {
    var tail := if mode.Custom? then [Write(LedDuty, mode.brightness)] else BreathActs(mode.config);
    AvoidsAppend(RESET_ENGINE, tail);
    assert LedActs(true, mode) == RESET_ENGINE + tail;
    Associate(TAKE_OVER, RESET_ENGINE, tail);
  }

  /** Without the take-over, bypass, multiplexer and flag are left alone. */
  lemma EngineLeaves(t: Table, e: Ec, mode: PowerLedMode)
    requires Distinct(t) && !mode.Auto?
    ensures var e' := Do(t, e, LedActs(true, mode));
            e'.ledCustom == e.ledCustom && e'.At(t, Bypass) == e.At(t, Bypass) && e'.At(t, A0Mux) == e.At(t, A0Mux)
  {
    EngineAvoids(mode);
    AvoidsKeeps(t, e, LedActs(true, mode));
  }

  /** The writes after the bypass and the multiplexer. */
  lemma EngineEstablished(t: Table, e: Ec, mode: PowerLedMode)
    requires Distinct(t) && !mode.Auto?
    ensures var e' := Do(t, e, LedActs(true, mode));
            && e'.ledCustom == e.ledCustom && e'.At(t, Bypass) == e.At(t, Bypass) && e'.At(t, A0Mux) == e.At(t, A0Mux)
            && (LedShows(t, e', mode) <==> e.At(t, Bypass) == 1 && e.At(t, A0Mux) == 0)
  {
    EngineLeaves(t, e, mode);
    match mode {
      case Custom(b) => EngineReset(t, e, b);
      case Animation(c) => EngineBreathes(t, e, c);
    }
  }

  lemma TakeOverEffect(t: Table, e: Ec)
    requires Distinct(t)
    ensures Do(t, e, TAKE_OVER) == Ec(e.mem[t(Bypass) := 1][t(A0Mux) := 0], true)
  {
    DoExtend(t, e, TAKE_OVER, 0);
    DoExtend(t, e, TAKE_OVER, 1);
    DoExtend(t, e, TAKE_OVER, 2);
    assert TAKE_OVER[..0] == [] && TAKE_OVER[..3] == TAKE_OVER;
  }

  lemma TakenOver(t: Table, e: Ec)
    requires Distinct(t)
    ensures var e' := Do(t, e, TAKE_OVER); e'.ledCustom && e'.At(t, Bypass) == 1 && e'.At(t, A0Mux) == 0
  {
    LastWriteWins(t, e, TAKE_OVER, 0);
    LastWriteWins(t, e, TAKE_OVER, 1);
    LastStoreWins(t, e, TAKE_OVER, 2);
  }

  lemma AutoEstablished(t: Table, e: Ec, flag: bool)
    requires Distinct(t)
    ensures var e' := Do(t, e, LedActs(flag, PowerLedMode.Auto)); LedShows(t, e', PowerLedMode.Auto) && !e'.ledCustom
  {
    var acts := LedActs(flag, PowerLedMode.Auto);
    LastWriteWins(t, e, acts, 0);
    LastWriteWins(t, e, acts, 1);
    LastWriteWins(t, e, acts, 2);
    LastWriteWins(t, e, acts, 3);
    LastStoreWins(t, e, acts, 4);
  }

  lemma TakeOverEstablishes(t: Table, e: Ec, mode: PowerLedMode)
    requires Distinct(t) && !mode.Auto?
    ensures var e' := Do(t, e, LedActs(false, mode)); LedShows(t, e', mode) && e'.ledCustom && FlagSound(t, e')
  {
    EngineAvoids(mode);
    DoAppend(t, e, TAKE_OVER, LedActs(true, mode));
    TakenOver(t, e);
    EngineEstablished(t, Do(t, e, TAKE_OVER), mode);
  }

  /**
   * When an LED mode really takes effect: always, unless the flag is set although the chip no longer
   * holds the two registers the flag lets the code skip.
   */
  lemma LedAppliesIff(t: Table, e: Ec, mode: PowerLedMode)
    requires Distinct(t)
    ensures var e' := Do(t, e, LedActs(e.ledCustom, mode));
            && (LedShows(t, e', mode) <==> mode.Auto? || FlagSound(t, e))
            && (e'.ledCustom <==> !mode.Auto?)
            && (FlagSound(t, e) ==> FlagSound(t, e'))
  {
    if mode.Auto? {
      AutoEstablished(t, e, e.ledCustom);
    } else if e.ledCustom {
      EngineEstablished(t, e, mode);
    } else {
      TakeOverEstablishes(t, e, mode);
    }
  }

  lemma TakeOverChangesNothing(t: Table, e: Ec)
    requires Distinct(t) && FlagSound(t, e) && e.ledCustom
    ensures Do(t, e.(ledCustom := false), TAKE_OVER) == e
  {
    TakeOverEffect(t, e.(ledCustom := false));
  }

  /**
   * Skipping is sound: with a sound flag, the skipping operation and one that always writes bypass
   * and multiplexer end in the same registers and the same flag.
   */
  lemma SkippingIsInvisible(t: Table, e: Ec, mode: PowerLedMode)
    requires Distinct(t) && FlagSound(t, e)
    ensures Do(t, e, LedActs(e.ledCustom, mode)) == Do(t, e.(ledCustom := false), LedActs(false, mode))
  {
    var e0 := e.(ledCustom := false);
    if e.ledCustom {
      if mode.Auto? {
        AutoIgnoresFlag(t, e);
      } else {
        TakeOverChangesNothing(t, e);
        EngineAvoids(mode);
        DoAppend(t, e0, TAKE_OVER, LedActs(true, mode));
      }
    }
  }

  lemma {:induction false} MemoryIgnoresFlag(t: Table, e: Ec, acts: seq<Act>)
    ensures Do(t, e, acts).mem == Do(t, e.(ledCustom := false), acts).mem
  {
    if acts != [] {
      MemoryIgnoresFlag(t, e, acts[..|acts| - 1]);
    }
  }

  lemma AutoIgnoresFlag(t: Table, e: Ec)
    ensures Do(t, e, LedActs(true, PowerLedMode.Auto))
        == Do(t, e.(ledCustom := false), LedActs(false, PowerLedMode.Auto))
  {
    var acts := LedActs(true, PowerLedMode.Auto);
    MemoryIgnoresFlag(t, e, acts);
    LastStoreWins(t, e, acts, 4);
    LastStoreWins(t, e.(ledCustom := false), acts, 4);
  }

  // ---- Under I/O errors ----

  /**
   * With errors the flag stays sound except in one case: an `Auto` that cleared the bypass and then
   * failed before it cleared the flag.
   */
  lemma FlagSoundUnderFaultsIff(t: Table, e: Ec, mode: PowerLedMode, k: nat)
    requires Distinct(t) && FlagSound(t, e) && k <= |LedActs(e.ledCustom, mode)|
    ensures FlagSound(t, Do(t, e, LedActs(e.ledCustom, mode)[..k])) <==> !(mode.Auto? && e.ledCustom && 1 <= k <= 4)
  {
    var acts := LedActs(e.ledCustom, mode);
    var part := acts[..k];
    if k == 0 {
      assert part == [];
    } else if k == |acts| {
      assert part == acts;
      LedAppliesIff(t, e, mode);
    } else if mode.Auto? {
      AutoCutShort(t, e, e.ledCustom, k);
    } else if e.ledCustom {
      EngineCutShort(t, e, mode, k);
    } else {
      TakeOverCutShort(t, e, mode, k);
    }
  }

  lemma TakeOverCutShort(t: Table, e: Ec, mode: PowerLedMode, k: nat)
    requires Distinct(t) && !mode.Auto? && !e.ledCustom && k <= |LedActs(false, mode)|
    ensures FlagSound(t, Do(t, e, LedActs(false, mode)[..k]))
  {
    EngineAvoids(mode);
    if k <= 2 {
      assert LedActs(false, mode)[..k] == TAKE_OVER[..k];
      FlagUntouched(t, e, TAKE_OVER[..k]);
    } else {
      var rest := LedActs(true, mode)[..k - 3];
      assert LedActs(false, mode)[..k] == TAKE_OVER + rest;
      DoAppend(t, e, TAKE_OVER, rest);
      TakenOver(t, e);
      EngineCutShort(t, Do(t, e, TAKE_OVER), mode, k - 3);
    }
  }

  lemma AutoCutShort(t: Table, e: Ec, flag: bool, k: nat)
    requires Distinct(t) && 1 <= k <= 4
    ensures var e' := Do(t, e, LedActs(flag, PowerLedMode.Auto)[..k]);
        e'.ledCustom == e.ledCustom && e'.At(t, Bypass) == 0
  {
    var part := ([Write(Bypass, 0x00)] + RESET_ENGINE)[..k];
    assert LedActs(flag, PowerLedMode.Auto)[..k] == part;
    LastWriteWins(t, e, part, 0);
    FlagUntouched(t, e, part);
  }

  lemma EngineCutShort(t: Table, e: Ec, mode: PowerLedMode, k: nat)
    requires Distinct(t) && !mode.Auto? && k <= |LedActs(true, mode)|
    ensures var e' := Do(t, e, LedActs(true, mode)[..k]);
            e'.At(t, Bypass) == e.At(t, Bypass) && e'.At(t, A0Mux) == e.At(t, A0Mux) && e'.ledCustom == e.ledCustom
  {
    EngineAvoids(mode);
    AvoidsKeeps(t, e, LedActs(true, mode)[..k]);
  }

  /** Applying one mode after the other. */
  function ApplyModes(t: Table, e: Ec, modes: seq<PowerLedMode>): Ec {
    if modes == [] then e
    else
      var before := ApplyModes(t, e, modes[..|modes| - 1]);
      Do(t, before, LedActs(before.ledCustom, modes[|modes| - 1]))
  }

  /** After such a failure the chip ignores every later custom or animated mode, up to the next automatic one. */
  lemma {:induction false} FailedAutoDisablesTheLed(t: Table, e: Ec, k: nat, modes: seq<PowerLedMode>)
    requires Distinct(t) && FlagSound(t, e) && e.ledCustom && 1 <= k <= 4
    requires forall i :: 0 <= i < |modes| ==> !modes[i].Auto?
    ensures var e' := ApplyModes(t, Do(t, e, LedActs(true, PowerLedMode.Auto)[..k]), modes);
            && e'.ledCustom && e'.At(t, Bypass) == 0
            && (modes != [] ==> !LedShows(t, e', modes[|modes| - 1]))
  {
    var broken := Do(t, e, LedActs(true, PowerLedMode.Auto)[..k]);
    AutoCutShort(t, e, true, k);
    if modes != [] {
      FailedAutoDisablesTheLed(t, e, k, modes[..|modes| - 1]);
      EngineLeaves(t, ApplyModes(t, broken, modes[..|modes| - 1]), modes[|modes| - 1]);
    }
  }

  // ---- Restoring all settings ----

  function StageFeature(n: nat): Feature
    requires n < 6
  {
    match n case 0 => Keyboard case 1 => Led case 2 => Profile case 3 => Charge case 4 => Fan(Cpu) case _ => Fan(Gpu)
  }

  /** The stage that applies `f`. */
  function StageOf(f: Feature): nat {
    match f case Keyboard => 0 case Led => 1 case Profile => 2 case Charge => 3 case Fan(Cpu) => 4 case _ => 5
  }

  lemma StageOfFeature(f: Feature)
    requires f != Other
    ensures StageOf(f) < 6 && StageFeature(StageOf(f)) == f && (f != Led ==> StageOf(f) != 1)
  {
  }

  function StageActs(flag: bool, s: CurrentSettings, n: nat): seq<Act>
    requires n < 6
  {
    match n
    case 0 => KeyboardActs(s.keyboardBacklight)
    case 1 => LedActs(flag, s.ledMode)
    case 2 => ProfileActs(s.powerProfile)
    case 3 => ChargeActs(s.chargeLimit)
    case 4 => FanActs(Cpu, s.fanModeCpu)
    case _ => FanActs(Gpu, s.fanModeGpu)
  }

  /** The registers after the first `n` of the six steps of `restore_state`. */
  function After(t: Table, e: Ec, s: CurrentSettings, n: nat): Ec
    requires n <= 6
  {
    if n == 0 then e else Do(t, After(t, e, s, n - 1), StageActs(e.ledCustom, s, n - 1))
  }

  lemma RestoreInStages(t: Table, e: Ec, s: CurrentSettings)
    requires FansAllowed(s)
    ensures Restore(t, e, s) == After(t, e, s, 6)
  {
    var k, l := KeyboardActs(s.keyboardBacklight), LedActs(e.ledCustom, s.ledMode);
    var p, c := ProfileActs(s.powerProfile), ChargeActs(s.chargeLimit);
    var f, g := FanActs(Cpu, s.fanModeCpu), FanActs(Gpu, s.fanModeGpu);
    DoAppend(t, e, k + l + p + c, f + g);
    DoAppend(t, e, k + l + p, c);
    DoAppend(t, e, k + l, p);
    DoAppend(t, e, k, l);
    DoAppend(t, Do(t, e, k + l + p + c), f, g);
    assert After(t, e, s, 1) == Do(t, e, k);
    assert After(t, e, s, 2) == Do(t, After(t, e, s, 1), l);
    assert After(t, e, s, 3) == Do(t, After(t, e, s, 2), p);
    assert After(t, e, s, 4) == Do(t, After(t, e, s, 3), c);
    assert After(t, e, s, 5) == Do(t, After(t, e, s, 4), f);
  }

  lemma StageStaysWithin(flag: bool, s: CurrentSettings, n: nat)
    requires n < 6
    ensures Within(StageActs(flag, s, n), StageFeature(n))
    ensures n != 1 ==> forall i :: 0 <= i < |StageActs(flag, s, n)| ==> StageActs(flag, s, n)[i].Write?
  {
    OperationsStayWithin(s.keyboardBacklight, flag, s.ledMode, s.powerProfile, s.chargeLimit, Cpu, s.fanModeCpu);
    OperationsStayWithin(s.keyboardBacklight, flag, s.ledMode, s.powerProfile, s.chargeLimit, Gpu, s.fanModeGpu);
  }

  /** Steps other than a setting's own leave its registers alone. */
  lemma {:induction false} LaterStagesKeep(t: Table, e: Ec, s: CurrentSettings, m: nat, n: nat, g: Feature)
    requires Distinct(t) && m <= n <= 6 && forall i :: m <= i < n ==> StageFeature(i) != g
    ensures SameRegs(t, After(t, e, s, m), After(t, e, s, n), g)
  {
    if m < n {
      LaterStagesKeep(t, e, s, m, n - 1, g);
      StageStaysWithin(e.ledCustom, s, n - 1);
      OtherRegsStay(t, After(t, e, s, n - 1), StageActs(e.ledCustom, s, n - 1), StageFeature(n - 1), g);
    }
  }

  lemma {:induction false} FlagAfterStage(t: Table, e: Ec, s: CurrentSettings, n: nat)
    requires Distinct(t) && n <= 6
    ensures After(t, e, s, n).ledCustom == if n <= 1 then e.ledCustom else !s.ledMode.Auto?
    ensures n <= 1 ==> (FlagSound(t, After(t, e, s, n)) <==> FlagSound(t, e))
    ensures FlagSound(t, e) ==> FlagSound(t, After(t, e, s, n))
  {
    if n > 0 {
      FlagAfterStage(t, e, s, n - 1);
      FlagThroughStage(t, After(t, e, s, n - 1), e.ledCustom, s, n - 1);
    }
  }

  lemma FlagThroughStage(t: Table, e: Ec, flag: bool, s: CurrentSettings, n: nat)
    requires Distinct(t) && n < 6 && (n == 1 ==> e.ledCustom == flag)
    ensures var e' := Do(t, e, StageActs(flag, s, n));
            if n == 1 then e'.ledCustom == !s.ledMode.Auto? && (FlagSound(t, e) ==> FlagSound(t, e'))
            else e'.ledCustom == e.ledCustom && (FlagSound(t, e') <==> FlagSound(t, e))
  {
    if n == 1 {
      LedAppliesIff(t, e, s.ledMode);
    } else {
      StageStaysWithin(flag, s, n);
      FlagSoundStays(t, e, StageActs(flag, s, n), StageFeature(n));
    }
  }

  /** A step other than the LED's establishes its setting. */
  lemma StageEstablishes(t: Table, e: Ec, s: CurrentSettings, flag: bool, n: nat)
    requires Distinct(t) && n < 6 && n != 1
    ensures Shows(t, Do(t, e, StageActs(flag, s, n)), s, StageFeature(n))
  {
    match n {
      case 0 => KeyboardEstablished(t, e, s.keyboardBacklight);
      case 2 => ProfileEstablished(t, e, s.powerProfile);
      case 3 => ChargeEstablished(t, e, s.chargeLimit);
      case 4 => FanEstablished(t, e, Cpu, s.fanModeCpu);
      case _ => FanEstablished(t, e, Gpu, s.fanModeGpu);
    }
  }

  /** What step `n` leaves of its own setting is there at the end. */
  lemma KeptToTheEnd(t: Table, e: Ec, s: CurrentSettings, n: nat)
    requires Distinct(t) && FansAllowed(s) && n < 6
    ensures Shows(t, Restore(t, e, s), s, StageFeature(n)) <==> Shows(t, After(t, e, s, n + 1), s, StageFeature(n))
  {
    RestoreInStages(t, e, s);
    LaterStagesKeep(t, e, s, n + 1, 6, StageFeature(n));
    SameRegsShowTheSame(t, After(t, e, s, n + 1), After(t, e, s, 6), s, StageFeature(n));
  }

  lemma ShownAfterRestore(t: Table, e: Ec, s: CurrentSettings, n: nat)
    requires Distinct(t) && FansAllowed(s) && n < 6 && n != 1
    ensures Shows(t, Restore(t, e, s), s, StageFeature(n))
  {
    KeptToTheEnd(t, e, s, n);
    StageEstablishes(t, After(t, e, s, n), s, e.ledCustom, n);
  }

  lemma LedAfterRestore(t: Table, e: Ec, s: CurrentSettings)
    requires Distinct(t) && FansAllowed(s)
    ensures LedShows(t, Restore(t, e, s), s.ledMode) <==> s.ledMode.Auto? || FlagSound(t, e)
  {
    KeptToTheEnd(t, e, s, 1);
    FlagAfterStage(t, e, s, 1);
    LedAppliesIff(t, After(t, e, s, 1), s.ledMode);
    assert After(t, e, s, 2) == Do(t, After(t, e, s, 1), LedActs(e.ledCustom, s.ledMode));
  }

  lemma FlagAfterRestore(t: Table, e: Ec, s: CurrentSettings)
    requires Distinct(t) && FansAllowed(s)
    ensures var e' := Restore(t, e, s);
            (e'.ledCustom <==> !s.ledMode.Auto?) && (FlagSound(t, e) ==> FlagSound(t, e'))
  {
    RestoreInStages(t, e, s);
    FlagAfterStage(t, e, s, 6);
  }

  lemma RestoreCoherent(t: Table, e: Ec, s: CurrentSettings)
    requires Distinct(t) && FansAllowed(s)
    ensures Coherent(t, Restore(t, e, s), s)
  {
    forall f | f != Led
      ensures Shows(t, Restore(t, e, s), s, f)
    {
      if f != Other {
        StageOfFeature(f);
        ShownAfterRestore(t, e, s, StageOf(f));
      }
    }
  }

  /**
   * `restore_state` on arbitrary registers: every setting is re-established, the LED exactly when
   * its mode is automatic or the two skipped registers hold what a set flag claims.
   */
  lemma RestoreEstablishes(t: Table, e: Ec, s: CurrentSettings)
    requires Distinct(t) && FansAllowed(s)
    ensures var e' := Restore(t, e, s);
            && Coherent(t, e', s)
            && (LedShows(t, e', s.ledMode) <==> s.ledMode.Auto? || FlagSound(t, e))
            && (e'.ledCustom <==> !s.ledMode.Auto?)
            && (FlagSound(t, e) ==> FlagSound(t, e'))
  {
    RestoreCoherent(t, e, s);
    LedAfterRestore(t, e, s);
    FlagAfterRestore(t, e, s);
  }
}
