/** The messages byte by byte, apart from schemas and values: ipc/src/lib.rs and ipc/src/structs.rs. */
module WireBytes {
  import opened Bytes
  import opened Settings
  import opened Messages
  import opened Codec
  import opened Wire
  import opened Framing

  // ---- Numbers and texts ----

  /** One byte up to 250, else a marker and two, four or eight bytes, least significant first. */
  function Int(n: u64): seq<byte> {
    if n <= 250 then [n]
    else if n <= 0xFFFF then [251, n % 256, n / 256]
    else if n <= 0xFFFF_FFFF then [252] + Four(n)
    else [253] + Four(n) + Four(n / 256 / 256 / 256 / 256)
  }

  /** The four low bytes. */
  function Four(n: nat): seq<byte> {
    [n % 256, n / 256 % 256, n / 256 / 256 % 256, n / 256 / 256 / 256 % 256]
  }

  function TextBytes(t: Text): seq<byte> { Int(|t|) + t }

  lemma FourOf(n: nat, k: nat)
    ensures ToLe(n, k + 4) == Four(n) + ToLe(n / 256 / 256 / 256 / 256, k)
  {
    var a, b, c := n / 256, n / 256 / 256, n / 256 / 256 / 256;
    assert ToLe(n, k + 4) == [n % 256] + ToLe(a, k + 3);
    assert ToLe(a, k + 3) == [a % 256] + ToLe(b, k + 2);
    assert ToLe(b, k + 2) == [b % 256] + ToLe(c, k + 1);
    assert ToLe(c, k + 1) == [c % 256] + ToLe(c / 256, k);
  }

  lemma VarintIs(n: u64)
    ensures Varint(n) == Int(n)
  {
    if 250 < n <= 0xFFFF {
      assert ToLe(n, 2) == [n % 256] + ToLe(n / 256, 1) && ToLe(n / 256, 1) == [n / 256 % 256] + [];
    } else if n > 0xFFFF && n <= 0xFFFF_FFFF {
      FourOf(n, 0);
      assert ToLe(n, 4) == Four(n) + [];
    } else if n > 0xFFFF_FFFF {
      FourOf(n, 4);
      FourOf(n / 256 / 256 / 256 / 256, 0);
      Associate([253], Four(n), Four(n / 256 / 256 / 256 / 256));
    }
  }

  lemma TextIs(t: Text)
    ensures Encode(Str, Chars(t)) == TextBytes(t)
  {
    VarintIs(|t|);
  }

  /** The header: length least significant byte first, wrapped to 32 bits, then the three version numbers. */
  lemma FrameIs(ver: Version, p: seq<byte>)
    ensures Frame(ver, p) == Four(|p| % 0x1_0000_0000) + [ver.major, ver.minor, ver.patch] + p
  {
    FourOf(|p| % 0x1_0000_0000, 0);
    var four := Four(|p| % 0x1_0000_0000);
    assert ToLe(|p| % 0x1_0000_0000, 4) == four + [];
  }

  // ---- Parts of messages ----

  lemma TagIs(n: nat, i: nat)
    requires i < n < 0x100 && i <= 250
    ensures Encode(Enum(Plain(n)), Tag(n, i)) == [i]
  {
  }

  lemma PickIs(vs: seq<Schema>, tag: nat, x: Val)
    requires tag < |vs| < 0x100 && tag <= 250 && Fits(vs[tag], x)
    ensures Encode(Enum(vs), Pick(vs, tag, x)) == [tag] + Encode(vs[tag], x)
  {
  }

  /** A variant whose content is known. */
  lemma VariantIs(vs: seq<Schema>, tag: nat, s: Schema, x: Val, bytes: seq<byte>)
    requires tag < |vs| < 0x100 && tag <= 250 && vs[tag] == s && Fits(s, x) && Encode(s, x) == bytes
    ensures Encode(Enum(vs), Pick(vs, tag, x)) == [tag] + bytes
  {
    PickIs(vs, tag, x);
  }

  lemma JoinIs(a: Schema, b: Schema, x: Val, y: Val)
    requires Fits(a, x) && Fits(b, y)
    ensures Encode(Pair(a, b), Join(a, b, x, y)) == Encode(a, x) + Encode(b, y)
  {
  }

  function ProfileByte(p: PowerProfile): byte { if p.Silent? then 0 else if p.Default? then 1 else 2 }

  function LimitByte(c: ChargeLimit): byte {
    if c.FullCapacity? then 0 else if c.HighCapacity? then 1 else if c.Balanced? then 2
    else if c.MaximumLifespan? then 3 else 4
  }

  function LevelBytes(k: KeyboardLevel): seq<byte> {
    if k.Off? then [0] else if k.Low? then [1] else if k.Medium? then [2] else if k.High? then [3] else [4, k.v]
  }

  function FanBytes(f: FanMode): seq<byte> {
    if f.Auto? then [0] else if f.Full? then [1] else [2, f.duty]
  }

  function BrightnessByte(b: BreathBrightness): byte {
    if b.Max25Percent? then 0 else if b.Max50Percent? then 1 else if b.Max75Percent? then 2 else 3
  }

  function StepByte(s: BreathStep): byte {
    if s.Slow? then 0 else if s.Medium? then 1 else if s.Fast? then 2 else 3
  }

  function DelayByte(d: BreathDelay): byte {
    if d.Ms15? then 0 else if d.Ms125? then 1 else if d.Ms250? then 2 else if d.Sec0_5? then 3
    else if d.Sec1? then 4 else if d.Sec2? then 5 else 6
  }

  function BreathBytes(c: BreathConfig): seq<byte> {
    [BrightnessByte(c.maxBrightness), StepByte(c.stepUp), StepByte(c.stepDown), DelayByte(c.delayAtMax),
     DelayByte(c.delayAtMin)]
  }

  function LedBytes(l: PowerLedMode): seq<byte> {
    match l
    case Auto => [0]
    case Custom(b) => [1, b]
    case Animation(c) => [2] + BreathBytes(c)
  }

  lemma ProfileIs(p: PowerProfile)
    ensures Encode(PROFILE, ProfileVal(p)) == [ProfileByte(p)]
  {
    TagIs(3, ProfileByte(p));
  }

  lemma LimitIs(c: ChargeLimit)
    ensures Encode(CHARGE, ChargeVal(c)) == [LimitByte(c)]
  {
    TagIs(5, LimitByte(c));
  }

  lemma LevelIs(k: KeyboardLevel)
    ensures Encode(LEVEL, LevelVal(k)) == LevelBytes(k)
  {
  }

  lemma FanIs(f: FanMode)
    ensures Encode(FAN_MODE, FanVal(f)) == FanBytes(f)
  {
  }

  lemma StepIs(s: BreathStep)
    ensures Encode(STEP, StepVal(s)) == [StepByte(s)]
  {
    TagIs(4, StepByte(s));
  }

  lemma DelayIs(d: BreathDelay)
    ensures Encode(DELAY, DelayVal(d)) == [DelayByte(d)]
  {
    TagIs(7, DelayByte(d));
  }

  lemma BrightnessIs(b: BreathBrightness)
    ensures Encode(BRIGHTNESS, BrightnessVal(b)) == [BrightnessByte(b)]
  {
    TagIs(4, BrightnessByte(b));
  }

  lemma BreathParts(c: BreathConfig)
    ensures BreathVal(c) ==
            Join(BRIGHTNESS, Pair(STEP, Pair(STEP, Pair(DELAY, DELAY))), BrightnessVal(c.maxBrightness),
              Join(STEP, Pair(STEP, Pair(DELAY, DELAY)), StepVal(c.stepUp),
                Join(STEP, Pair(DELAY, DELAY), StepVal(c.stepDown),
                  Join(DELAY, DELAY, DelayVal(c.delayAtMax), DelayVal(c.delayAtMin)))))
  {
  }

  /** The five tags, put together. */
  lemma FiveTags(c: BreathConfig)
    ensures Encode(BRIGHTNESS, BrightnessVal(c.maxBrightness))
            + (Encode(STEP, StepVal(c.stepUp)) + (Encode(STEP, StepVal(c.stepDown))
            + (Encode(DELAY, DelayVal(c.delayAtMax)) + Encode(DELAY, DelayVal(c.delayAtMin)))))
            == BreathBytes(c)
  {
    BrightnessIs(c.maxBrightness);
    StepIs(c.stepUp);
    StepIs(c.stepDown);
    DelayIs(c.delayAtMax);
    DelayIs(c.delayAtMin);
  }

  lemma BreathIs(c: BreathConfig)
    ensures Encode(BREATH, BreathVal(c)) == BreathBytes(c)
  {
    FiveTags(c);
    BreathParts(c);
    FiveParts(BRIGHTNESS, STEP, STEP, DELAY, DELAY, BrightnessVal(c.maxBrightness), StepVal(c.stepUp),
              StepVal(c.stepDown), DelayVal(c.delayAtMax), DelayVal(c.delayAtMin));
  }

  lemma FiveParts(p: Schema, q: Schema, r: Schema, s: Schema, t: Schema, a: Val, b: Val, c: Val, d: Val, e: Val)
    requires Fits(p, a) && Fits(q, b) && Fits(r, c) && Fits(s, d) && Fits(t, e)
    ensures Encode(Pair(p, Pair(q, Pair(r, Pair(s, t)))),
                   Join(p, Pair(q, Pair(r, Pair(s, t))), a, Join(q, Pair(r, Pair(s, t)), b,
                     Join(r, Pair(s, t), c, Join(s, t, d, e)))))
            == Encode(p, a) + (Encode(q, b) + (Encode(r, c) + (Encode(s, d) + Encode(t, e))))
  {
    var v1 := Join(s, t, d, e);
    JoinIs(s, t, d, e);
    var v2 := Join(r, Pair(s, t), c, v1);
    JoinIs(r, Pair(s, t), c, v1);
    var v3 := Join(q, Pair(r, Pair(s, t)), b, v2);
    JoinIs(q, Pair(r, Pair(s, t)), b, v2);
    JoinIs(p, Pair(q, Pair(r, Pair(s, t))), a, v3);
  }

  lemma AnimationIs(c: BreathConfig)
    ensures Encode(LED, Pick(LED_VARIANTS, 2, BreathVal(c))) == LedBytes(Animation(c))
  {
    BreathIs(c);
    VariantIs(LED_VARIANTS, 2, BREATH, BreathVal(c), BreathBytes(c));
  }

  lemma LedIs(l: PowerLedMode)
    ensures Encode(LED, LedVal(l)) == LedBytes(l)
  {
    match l {
      case Auto => PickIs(LED_VARIANTS, 0, Nothing);
      case Custom(b) => PickIs(LED_VARIANTS, 1, Num(b));
      case Animation(c) => AnimationIs(c);
    }
  }

  // ---- Settings ----

  /** The record in declaration order; the switch is one byte, the id a number. */
  function SettingsBytes(s: CurrentSettings): seq<byte> {
    [ProfileByte(s.powerProfile)] + LevelBytes(s.keyboardBacklight) + FanBytes(s.fanModeCpu) + FanBytes(s.fanModeGpu)
    + [LimitByte(s.chargeLimit)] + LedBytes(s.ledMode) + [if s.telemetryEnabled then 1 else 0]
    + Int(s.telemetryClientId)
  }

  lemma FromLedIs(s: CurrentSettings)
    ensures Encode(FROM_LED, Join(LED, SWITCHES, LedVal(s.ledMode),
              Join(Flag, U64, Truth(s.telemetryEnabled), Num(s.telemetryClientId))))
            == LedBytes(s.ledMode) + ([if s.telemetryEnabled then 1 else 0] + Int(s.telemetryClientId))
  {
    LedIs(s.ledMode);
    VarintIs(s.telemetryClientId);
    JoinIs(Flag, U64, Truth(s.telemetryEnabled), Num(s.telemetryClientId));
    JoinIs(LED, SWITCHES, LedVal(s.ledMode), Join(Flag, U64, Truth(s.telemetryEnabled), Num(s.telemetryClientId)));
  }

  lemma SettingsAre(s: CurrentSettings)
    ensures EncodeSettings(s) == SettingsBytes(s)
  {
    FromLedIs(s);
    ProfileIs(s.powerProfile);
    LevelIs(s.keyboardBacklight);
    FanIs(s.fanModeCpu);
    FanIs(s.fanModeGpu);
    LimitIs(s.chargeLimit);
    var led := Join(LED, SWITCHES, LedVal(s.ledMode),
                 Join(Flag, U64, Truth(s.telemetryEnabled), Num(s.telemetryClientId)));
    JoinIs(CHARGE, FROM_LED, ChargeVal(s.chargeLimit), led);
    var charge := Join(CHARGE, FROM_LED, ChargeVal(s.chargeLimit), led);
    JoinIs(FAN_MODE, FROM_CHARGE, FanVal(s.fanModeGpu), charge);
    var gpu := Join(FAN_MODE, FROM_CHARGE, FanVal(s.fanModeGpu), charge);
    JoinIs(FAN_MODE, FROM_GPU_FAN, FanVal(s.fanModeCpu), gpu);
    var cpu := Join(FAN_MODE, FROM_GPU_FAN, FanVal(s.fanModeCpu), gpu);
    JoinIs(LEVEL, FROM_CPU_FAN, LevelVal(s.keyboardBacklight), cpu);
    var level := Join(LEVEL, FROM_CPU_FAN, LevelVal(s.keyboardBacklight), cpu);
    JoinIs(PROFILE, FROM_KEYBOARD, ProfileVal(s.powerProfile), level);
    EightInARow([ProfileByte(s.powerProfile)], LevelBytes(s.keyboardBacklight), FanBytes(s.fanModeCpu),
                FanBytes(s.fanModeGpu), [LimitByte(s.chargeLimit)], LedBytes(s.ledMode),
                [if s.telemetryEnabled then 1 else 0], Int(s.telemetryClientId));
  }

  lemma EightInARow(a: seq<byte>, b: seq<byte>, c: seq<byte>, d: seq<byte>, e: seq<byte>, f: seq<byte>, g: seq<byte>,
                    h: seq<byte>)
    ensures a + (b + (c + (d + (e + (f + (g + h)))))) == a + b + c + d + e + f + g + h
  {
    Associate(a + b + c + d + e + f, g, h);
    Associate(a + b + c + d + e, f, g + h);
    Associate(a + b + c + d, e, f + (g + h));
    Associate(a + b + c, d, e + (f + (g + h)));
    Associate(a + b, c, d + (e + (f + (g + h))));
    Associate(a, b, c + (d + (e + (f + (g + h)))));
  }

  // ---- Requests ----

  function CommandBytes(c: DaemonCommand): seq<byte> {
    match c
    case RestoreDefaults => [0]
    case GetSettings => [1]
    case ApplySettings => [2]
    case GetTelemetryId => [3]
    case ActivateTelemetry(on) => [4, if on then 1 else 0]
    case ActivateProcessSuspend(on) => [5, if on then 1 else 0]
    case RunPrepareShutdown => [6]
    case RunPrepareSuspend => [7]
    case RunPrepareResume => [8]
  }

  function RequestBytes(r: IpcRequest): seq<byte> {
    match r
    case GetSystemState => [0]
    case GetFansRPM => [1]
    case GetTemperatures => [2]
    case GetChargeLimit => [3]
    case GetPowerProfile => [4]
    case GetKeyboardBacklight => [5]
    case SetPowerProfile(p) => [6] + [ProfileByte(p)]
    case SetFanMode(fan, mode) => [7] + ([if fan.Cpu? then 0 else 1] + FanBytes(mode))
    case SetKeyboardBacklight(k) => [8] + LevelBytes(k)
    case SetChargeLimit(c) => [9] + [LimitByte(c)]
    case SetLedMode(l) => [10] + LedBytes(l)
    case Command(c) => [11] + CommandBytes(c)
  }

  lemma CommandIs(c: DaemonCommand)
    ensures Encode(COMMAND, CommandVal(c)) == CommandBytes(c)
  {
  }

  lemma FanRequestIs(fan: FanIndex, mode: FanMode)
    ensures Encode(FAN_REQUEST, FanRequestVal(fan, mode)) == [if fan.Cpu? then 0 else 1] + FanBytes(mode)
  {
    TagIs(2, if fan.Cpu? then 0 else 1);
    FanIs(mode);
    JoinIs(FAN_INDEX, FAN_MODE, IndexVal(fan), FanVal(mode));
  }

  lemma GetterIs(r: IpcRequest)
    requires r.GetSystemState? || r.GetFansRPM? || r.GetTemperatures? || r.GetChargeLimit? || r.GetPowerProfile?
        || r.GetKeyboardBacklight?
    ensures EncodeRequest(r) == RequestBytes(r)
  {
    PickIs(REQUEST_VARIANTS, RequestBytes(r)[0], Nothing);
  }

  lemma SetProfileIs(p: PowerProfile)
    ensures Encode(REQUEST, Pick(REQUEST_VARIANTS, 6, ProfileVal(p))) == [6] + [ProfileByte(p)]
  {
    ProfileIs(p);
    VariantIs(REQUEST_VARIANTS, 6, PROFILE, ProfileVal(p), [ProfileByte(p)]);
  }

  lemma SetFanIs(fan: FanIndex, mode: FanMode)
    ensures Encode(REQUEST, Pick(REQUEST_VARIANTS, 7, FanRequestVal(fan, mode)))
            == [7] + ([if fan.Cpu? then 0 else 1] + FanBytes(mode))
  {
    FanRequestIs(fan, mode);
    VariantIs(REQUEST_VARIANTS, 7, FAN_REQUEST, FanRequestVal(fan, mode), [if fan.Cpu? then 0 else 1] + FanBytes(mode));
  }

  lemma SetLevelIs(k: KeyboardLevel)
    ensures Encode(REQUEST, Pick(REQUEST_VARIANTS, 8, LevelVal(k))) == [8] + LevelBytes(k)
  {
    LevelIs(k);
    VariantIs(REQUEST_VARIANTS, 8, LEVEL, LevelVal(k), LevelBytes(k));
  }

  lemma SetLimitIs(c: ChargeLimit)
    ensures Encode(REQUEST, Pick(REQUEST_VARIANTS, 9, ChargeVal(c))) == [9] + [LimitByte(c)]
  {
    LimitIs(c);
    VariantIs(REQUEST_VARIANTS, 9, CHARGE, ChargeVal(c), [LimitByte(c)]);
  }

  lemma SetLedIs(l: PowerLedMode)
    ensures Encode(REQUEST, Pick(REQUEST_VARIANTS, 10, LedVal(l))) == [10] + LedBytes(l)
  {
    LedIs(l);
    VariantIs(REQUEST_VARIANTS, 10, LED, LedVal(l), LedBytes(l));
  }

  lemma SetCommandIs(c: DaemonCommand)
    ensures Encode(REQUEST, Pick(REQUEST_VARIANTS, 11, CommandVal(c))) == [11] + CommandBytes(c)
  {
    CommandIs(c);
    VariantIs(REQUEST_VARIANTS, 11, COMMAND, CommandVal(c), CommandBytes(c));
  }

  /** Every request, byte by byte. */
  lemma RequestsAre(r: IpcRequest)
    ensures EncodeRequest(r) == RequestBytes(r)
  {
    match r {
      case SetPowerProfile(p) => SetProfileIs(p);
      case SetFanMode(fan, mode) => SetFanIs(fan, mode);
      case SetKeyboardBacklight(k) => SetLevelIs(k);
      case SetChargeLimit(c) => SetLimitIs(c);
      case SetLedMode(l) => SetLedIs(l);
      case Command(c) => SetCommandIs(c);
      case _ => GetterIs(r);
    }
  }

  // ---- Responses ----

  function AnswerBytes(d: DaemonResponse): seq<byte> {
    match d
    case Settings(s) => [0] + SettingsBytes(s)
    case TelemetryId(id) => [1] + Int(id)
  }

  function ResponseBytes(r: IpcResponse): seq<byte> {
    match r
    case Success => [0]
    case SystemInfo(chip, revision, hram, version) =>
      [1] + (TextBytes(chip) + (TextBytes(revision) + (Int(hram) + TextBytes(version))))
    case FanRPM(cpu, gpu) => [2] + (Int(cpu) + Int(gpu))
    case Temp(cpu, sys) => [3, cpu, sys]
    case ChargeLimits(min, max, current) => [4, min, max, current]
    case KeyboardBacklight(k) => [5] + LevelBytes(k)
    case PowerLimit(p) => [6, ProfileByte(p)]
    case FromDaemon(d) => [7] + AnswerBytes(d)
    case TelemetryDisabledInfo => [8]
    case Error(message) => [9] + TextBytes(message)
  }

  lemma AnswerIs(d: DaemonResponse)
    ensures Encode(ANSWER, AnswerVal(d)) == AnswerBytes(d)
  {
    match d {
      case Settings(s) =>
        SettingsAre(s);
        VariantIs(ANSWER_VARIANTS, 0, SETTINGS, SettingsVal(s), SettingsBytes(s));
      case TelemetryId(id) =>
        VarintIs(id);
        PickIs(ANSWER_VARIANTS, 1, Num(id));
    }
  }

  lemma InfoIs(chip: Text, revision: Text, hram: u16, version: Text)
    ensures Encode(INFO, InfoVal(chip, revision, hram, version))
            == TextBytes(chip) + (TextBytes(revision) + (Int(hram) + TextBytes(version)))
  {
    TextIs(chip);
    TextIs(revision);
    TextIs(version);
    VarintIs(hram);
    JoinIs(U16, Str, Num(hram), Chars(version));
    JoinIs(Str, FROM_HRAM, Chars(revision), Join(U16, Str, Num(hram), Chars(version)));
    JoinIs(Str, FROM_REVISION, Chars(chip), Join(Str, FROM_HRAM, Chars(revision),
      Join(U16, Str, Num(hram), Chars(version))));
  }

  lemma NumbersAre(r: IpcResponse)
    requires r.FanRPM? || r.Temp? || r.ChargeLimits?
    ensures EncodeResponse(r) == ResponseBytes(r)
  {
    match r {
      case FanRPM(cpu, gpu) =>
        VarintIs(cpu);
        VarintIs(gpu);
        JoinIs(U16, U16, Num(cpu), Num(gpu));
        PickIs(RESPONSE_VARIANTS, 2, FansVal(cpu, gpu));
      case Temp(cpu, sys) =>
        JoinIs(U8, U8, Num(cpu), Num(sys));
        PickIs(RESPONSE_VARIANTS, 3, TempsVal(cpu, sys));
      case ChargeLimits(min, max, current) =>
        JoinIs(U8, U8, Num(max), Num(current));
        JoinIs(U8, TWO_BYTES, Num(min), Join(U8, U8, Num(max), Num(current)));
        PickIs(RESPONSE_VARIANTS, 4, LimitsVal(min, max, current));
    }
  }

  lemma CodesAre(r: IpcResponse)
    requires r.Success? || r.TelemetryDisabledInfo? || r.KeyboardBacklight? || r.PowerLimit?
    ensures EncodeResponse(r) == ResponseBytes(r)
  {
    match r {
      case Success => PickIs(RESPONSE_VARIANTS, 0, Nothing);
      case KeyboardBacklight(k) =>
        LevelIs(k);
        PickIs(RESPONSE_VARIANTS, 5, LevelVal(k));
      case PowerLimit(p) =>
        ProfileIs(p);
        PickIs(RESPONSE_VARIANTS, 6, ProfileVal(p));
      case TelemetryDisabledInfo => PickIs(RESPONSE_VARIANTS, 8, Nothing);
    }
  }

  lemma SystemInfoIs(chip: Text, revision: Text, hram: u16, version: Text)
    ensures Encode(RESPONSE, Pick(RESPONSE_VARIANTS, 1, InfoVal(chip, revision, hram, version)))
            == [1] + (TextBytes(chip) + (TextBytes(revision) + (Int(hram) + TextBytes(version))))
  {
    InfoIs(chip, revision, hram, version);
    VariantIs(RESPONSE_VARIANTS, 1, INFO, InfoVal(chip, revision, hram, version),
              TextBytes(chip) + (TextBytes(revision) + (Int(hram) + TextBytes(version))));
  }

  lemma FromDaemonIs(d: DaemonResponse)
    ensures Encode(RESPONSE, Pick(RESPONSE_VARIANTS, 7, AnswerVal(d))) == [7] + AnswerBytes(d)
  {
    AnswerIs(d);
    VariantIs(RESPONSE_VARIANTS, 7, ANSWER, AnswerVal(d), AnswerBytes(d));
  }

  lemma ErrorIs(message: Text)
    ensures Encode(RESPONSE, Pick(RESPONSE_VARIANTS, 9, Chars(message))) == [9] + TextBytes(message)
  {
    TextIs(message);
    VariantIs(RESPONSE_VARIANTS, 9, Str, Chars(message), TextBytes(message));
  }

  /** Every response, byte by byte. */
  lemma ResponsesAre(r: IpcResponse)
    ensures EncodeResponse(r) == ResponseBytes(r)
  {
    match r {
      case SystemInfo(chip, revision, hram, version) => SystemInfoIs(chip, revision, hram, version);
      case FromDaemon(d) => FromDaemonIs(d);
      case Error(message) => ErrorIs(message);
      case _ =>
        if r.FanRPM? || r.Temp? || r.ChargeLimits? {
          NumbersAre(r);
        } else {
          CodesAre(r);
        }
    }
  }

  // ---- Telemetry ----

  function StatusBytes(p: PowerProfile, temps: (u32, u32), fans: (u32, u32)): seq<byte> {
    [1, ProfileByte(p)] + ((Int(temps.0) + Int(temps.1)) + (Int(fans.0) + Int(fans.1)))
  }

  function DataBytes(d: TelemetryData): seq<byte> {
    match d
    case Startup(fw, off, cpu, os, mb) =>
      [0] + (TextBytes(fw) + (Int(off) + (TextBytes(cpu) + (TextBytes(os) + TextBytes(mb)))))
    case Status(p, temps, fans) => StatusBytes(p, temps, fans)
    case Panic(e) => [2] + TextBytes(e)
  }

  function OldDataBytes(d: TelemetryDataV1): seq<byte> {
    match d
    case StartupV1(fw, off, cpu, os) => [0] + (TextBytes(fw) + (Int(off) + (TextBytes(cpu) + TextBytes(os))))
    case StatusV1(p, temps, fans) => StatusBytes(p, temps, fans)
    case PanicV1(e) => [2] + TextBytes(e)
  }

  lemma StatusIs(p: PowerProfile, temps: (u32, u32), fans: (u32, u32))
    ensures [1] + Encode(STATUS, StatusVal(p, temps, fans)) == StatusBytes(p, temps, fans)
  {
    ProfileIs(p);
    VarintIs(temps.0);
    VarintIs(temps.1);
    VarintIs(fans.0);
    VarintIs(fans.1);
    JoinIs(U32, U32, Num(temps.0), Num(temps.1));
    JoinIs(U32, U32, Num(fans.0), Num(fans.1));
    JoinIs(WORDS, WORDS, WordsVal(temps), WordsVal(fans));
    JoinIs(PROFILE, PAIR_OF_WORDS, ProfileVal(p), Join(WORDS, WORDS, WordsVal(temps), WordsVal(fans)));
  }

  lemma StartupIs(fw: Text, off: u16, cpu: Text, os: Text, mb: Text)
    ensures Encode(DATA, DataVal(Startup(fw, off, cpu, os, mb))) == DataBytes(Startup(fw, off, cpu, os, mb))
  {
    TextIs(fw);
    VarintIs(off);
    TextIs(cpu);
    TextIs(os);
    TextIs(mb);
    var v1 := Join(Str, Str, Chars(os), Chars(mb));
    JoinIs(Str, Str, Chars(os), Chars(mb));
    var v2 := Join(Str, FROM_OS, Chars(cpu), v1);
    JoinIs(Str, FROM_OS, Chars(cpu), v1);
    var v3 := Join(U16, FROM_CPU, Num(off), v2);
    JoinIs(U16, FROM_CPU, Num(off), v2);
    JoinIs(Str, FROM_OFFSET, Chars(fw), v3);
    PickIs(DATA_VARIANTS, 0, Join(Str, FROM_OFFSET, Chars(fw), v3));
  }

  lemma OldStartupIs(fw: Text, off: u16, cpu: Text, os: Text)
    ensures Encode(DATA_V1, DataV1Val(StartupV1(fw, off, cpu, os))) == OldDataBytes(StartupV1(fw, off, cpu, os))
  {
    TextIs(fw);
    VarintIs(off);
    TextIs(cpu);
    TextIs(os);
    var v1 := Join(Str, Str, Chars(cpu), Chars(os));
    JoinIs(Str, Str, Chars(cpu), Chars(os));
    var v2 := Join(U16, FROM_CPU_V1, Num(off), v1);
    JoinIs(U16, FROM_CPU_V1, Num(off), v1);
    JoinIs(Str, FROM_OFFSET_V1, Chars(fw), v2);
    PickIs(DATA_V1_VARIANTS, 0, Join(Str, FROM_OFFSET_V1, Chars(fw), v2));
  }

  lemma DataIs(d: TelemetryData)
    ensures Encode(DATA, DataVal(d)) == DataBytes(d)
  {
    match d {
      case Startup(fw, off, cpu, os, mb) => StartupIs(fw, off, cpu, os, mb);
      case Status(p, temps, fans) =>
        StatusIs(p, temps, fans);
        PickIs(DATA_VARIANTS, 1, StatusVal(p, temps, fans));
      case Panic(e) =>
        TextIs(e);
        PickIs(DATA_VARIANTS, 2, Chars(e));
    }
  }

  lemma OldDataIs(d: TelemetryDataV1)
    ensures Encode(DATA_V1, DataV1Val(d)) == OldDataBytes(d)
  {
    match d {
      case StartupV1(fw, off, cpu, os) => OldStartupIs(fw, off, cpu, os);
      case StatusV1(p, temps, fans) =>
        StatusIs(p, temps, fans);
        PickIs(DATA_V1_VARIANTS, 1, StatusVal(p, temps, fans));
      case PanicV1(e) =>
        TextIs(e);
        PickIs(DATA_V1_VARIANTS, 2, Chars(e));
    }
  }

  /** Every telemetry message of either format, byte by byte: the sender's id, then the data. */
  lemma PayloadsAre(p: Payload)
    ensures Encode(PAYLOAD, PayloadVal(p)) == Int(p.id) + DataBytes(p.data)
  {
    VarintIs(p.id);
    DataIs(p.data);
    JoinIs(U64, DATA, Num(p.id), DataVal(p.data));
  }

  lemma OldPayloadsAre(p: PayloadV1)
    ensures Encode(PAYLOAD_V1, PayloadV1Val(p)) == Int(p.id) + OldDataBytes(p.data)
  {
    VarintIs(p.id);
    OldDataIs(p.data);
    JoinIs(U64, DATA_V1, Num(p.id), DataV1Val(p.data));
  }
}
