/** The concrete message types in the binary format, and that each survives the trip. */
module Wire {
  import opened Bytes
  import opened Settings
  import opened Messages
  import opened Codec

  // ---- Building and taking apart values ----

  function Join(a: Schema, b: Schema, x: Val, y: Val): (v: Val)
    requires Fits(a, x) && Fits(b, y)
    ensures Fits(Pair(a, b), v) && Cost(Pair(a, b), v) == Cost(a, x) + Cost(b, y)
  {
    Both(x, y)
  }

  function First(a: Schema, b: Schema, v: Val): (x: Val)
    requires Fits(Pair(a, b), v)
    ensures Fits(a, x)
  {
    v.first
  }

  function Second(a: Schema, b: Schema, v: Val): (y: Val)
    requires Fits(Pair(a, b), v)
    ensures Fits(b, y)
  {
    v.second
  }

  function Pick(vs: seq<Schema>, tag: nat, x: Val): (v: Val)
    requires tag < |vs| < 0x100 && Fits(vs[tag], x)
    ensures Fits(Enum(vs), v) && Cost(Enum(vs), v) == 4 + Cost(vs[tag], x)
  {
    Choice(tag, x)
  }

  /** The content of a variant. */
  function Content(vs: seq<Schema>, v: Val): (x: Val)
    requires Fits(Enum(vs), v)
    ensures v.tag < |vs| && Fits(vs[v.tag], x)
  {
    v.v
  }

  /** `n` variants without fields. */
  function Plain(n: nat): seq<Schema> { seq(n, _ => Unit) }

  function Tag(n: nat, i: nat): (v: Val)
    requires i < n < 0x100
    ensures Fits(Enum(Plain(n)), v) && Cost(Enum(Plain(n)), v) == 4
  {
    Pick(Plain(n), i, Nothing)
  }

  const PROFILE := Enum(Plain(3))

  function ProfileVal(x: PowerProfile): (v: Val)
    ensures Fits(PROFILE, v) && ProfileOf(v) == x && Cost(PROFILE, v) == 4
  {
    Tag(3, match x case Silent => 0 case Default => 1 case Performance => 2)
  }

  function ProfileOf(v: Val): PowerProfile
    requires Fits(PROFILE, v)
  {
    [PowerProfile.Silent, PowerProfile.Default, PowerProfile.Performance][v.tag]
  }

  const FAN_INDEX := Enum(Plain(2))

  function IndexVal(x: FanIndex): (v: Val)
    ensures Fits(FAN_INDEX, v) && IndexOf(v) == x && Cost(FAN_INDEX, v) == 4
  {
    Tag(2, match x case Cpu => 0 case Gpu => 1)
  }

  function IndexOf(v: Val): FanIndex
    requires Fits(FAN_INDEX, v)
  {
    [FanIndex.Cpu, FanIndex.Gpu][v.tag]
  }

  const CHARGE := Enum(Plain(5))

  function ChargeVal(x: ChargeLimit): (v: Val)
    ensures Fits(CHARGE, v) && ChargeOf(v) == x && Cost(CHARGE, v) == 4
  {
    Tag(5, match x case FullCapacity => 0 case HighCapacity => 1 case Balanced => 2
                   case MaximumLifespan => 3 case DeskMode => 4)
  }

  function ChargeOf(v: Val): ChargeLimit
    requires Fits(CHARGE, v)
  {
    [ChargeLimit.FullCapacity, ChargeLimit.HighCapacity, ChargeLimit.Balanced,
     ChargeLimit.MaximumLifespan, ChargeLimit.DeskMode][v.tag]
  }

  const BRIGHTNESS := Enum(Plain(4))

  function BrightnessVal(x: BreathBrightness): (v: Val)
    ensures Fits(BRIGHTNESS, v) && BrightnessOf(v) == x && Cost(BRIGHTNESS, v) == 4
  {
    Tag(4, match x case Max25Percent => 0 case Max50Percent => 1 case Max75Percent => 2 case Max100Percent => 3)
  }

  function BrightnessOf(v: Val): BreathBrightness
    requires Fits(BRIGHTNESS, v)
  {
    [BreathBrightness.Max25Percent, BreathBrightness.Max50Percent,
     BreathBrightness.Max75Percent, BreathBrightness.Max100Percent][v.tag]
  }

  const STEP := Enum(Plain(4))

  function StepVal(x: BreathStep): (v: Val)
    ensures Fits(STEP, v) && StepOf(v) == x && Cost(STEP, v) == 4
  {
    Tag(4, match x case Slow => 0 case Medium => 1 case Fast => 2 case Instant => 3)
  }

  function StepOf(v: Val): BreathStep
    requires Fits(STEP, v)
  {
    [BreathStep.Slow, BreathStep.Medium, BreathStep.Fast, BreathStep.Instant][v.tag]
  }

  const DELAY := Enum(Plain(7))

  function DelayVal(x: BreathDelay): (v: Val)
    ensures Fits(DELAY, v) && DelayOf(v) == x && Cost(DELAY, v) == 4
  {
    Tag(7, match x case Ms15 => 0 case Ms125 => 1 case Ms250 => 2 case Sec0_5 => 3
                   case Sec1 => 4 case Sec2 => 5 case Sec4 => 6)
  }

  function DelayOf(v: Val): BreathDelay
    requires Fits(DELAY, v)
  {
    [BreathDelay.Ms15, BreathDelay.Ms125, BreathDelay.Ms250,
     BreathDelay.Sec0_5, BreathDelay.Sec1, BreathDelay.Sec2, BreathDelay.Sec4][v.tag]
  }

  const DELAYS := Pair(DELAY, DELAY)
  const FROM_STEP_DOWN := Pair(STEP, DELAYS)
  const FROM_STEP_UP := Pair(STEP, FROM_STEP_DOWN)
  const BREATH := Pair(BRIGHTNESS, FROM_STEP_UP)

  function BreathVal(x: BreathConfig): (v: Val)
    ensures Fits(BREATH, v) && BreathOf(v) == x && Cost(BREATH, v) == 20
  {
    Join(BRIGHTNESS, FROM_STEP_UP, BrightnessVal(x.maxBrightness),
      Join(STEP, FROM_STEP_DOWN, StepVal(x.stepUp),
        Join(STEP, DELAYS, StepVal(x.stepDown),
          Join(DELAY, DELAY, DelayVal(x.delayAtMax), DelayVal(x.delayAtMin)))))
  }

  function BreathOf(v: Val): BreathConfig
    requires Fits(BREATH, v)
  {
    var r1 := Second(BRIGHTNESS, FROM_STEP_UP, v);
    var r2 := Second(STEP, FROM_STEP_DOWN, r1);
    var r3 := Second(STEP, DELAYS, r2);
    var r4 := Second(DELAY, DELAY, r3);
    BreathConfig(BrightnessOf(First(BRIGHTNESS, FROM_STEP_UP, v)),
                 StepOf(First(STEP, FROM_STEP_DOWN, r1)), StepOf(First(STEP, DELAYS, r2)),
                 DelayOf(First(DELAY, DELAY, r3)), DelayOf(r4))
  }

  const LEVEL_VARIANTS := [Unit, Unit, Unit, Unit, U8]
  const LEVEL := Enum(LEVEL_VARIANTS)

  function LevelVal(x: KeyboardLevel): (v: Val)
    ensures Fits(LEVEL, v) && LevelOf(v) == x && Cost(LEVEL, v) <= 5
  {
    match x
    case Off => Pick(LEVEL_VARIANTS, 0, Nothing)
    case Low => Pick(LEVEL_VARIANTS, 1, Nothing)
    case Medium => Pick(LEVEL_VARIANTS, 2, Nothing)
    case High => Pick(LEVEL_VARIANTS, 3, Nothing)
    case Custom(n) => Pick(LEVEL_VARIANTS, 4, Num(n))
  }

  function LevelOf(v: Val): KeyboardLevel
    requires Fits(LEVEL, v)
  {
    var x := Content(LEVEL_VARIANTS, v);
    if v.tag == 0 then KeyboardLevel.Off
    else if v.tag == 1 then KeyboardLevel.Low
    else if v.tag == 2 then KeyboardLevel.Medium
    else if v.tag == 3 then KeyboardLevel.High
    else KeyboardLevel.Custom(x.n)
  }

  const FAN_MODE_VARIANTS := [Unit, Unit, U8]
  const FAN_MODE := Enum(FAN_MODE_VARIANTS)

  function FanVal(x: FanMode): (v: Val)
    ensures Fits(FAN_MODE, v) && FanOf(v) == x && Cost(FAN_MODE, v) <= 5
  {
    match x
    case Auto => Pick(FAN_MODE_VARIANTS, 0, Nothing)
    case Full => Pick(FAN_MODE_VARIANTS, 1, Nothing)
    case Custom(d) => Pick(FAN_MODE_VARIANTS, 2, Num(d))
  }

  function FanOf(v: Val): FanMode
    requires Fits(FAN_MODE, v)
  {
    var x := Content(FAN_MODE_VARIANTS, v);
    if v.tag == 0 then FanMode.Auto
    else if v.tag == 1 then FanMode.Full
    else FanMode.Custom(x.n)
  }

  const LED_VARIANTS := [Unit, U8, BREATH]
  const LED := Enum(LED_VARIANTS)

  function LedVal(x: PowerLedMode): (v: Val)
    ensures Fits(LED, v) && LedOf(v) == x && Cost(LED, v) <= 24
  {
    match x
    case Auto => Pick(LED_VARIANTS, 0, Nothing)
    case Custom(b) => Pick(LED_VARIANTS, 1, Num(b))
    case Animation(c) => Pick(LED_VARIANTS, 2, BreathVal(c))
  }

  function LedOf(v: Val): PowerLedMode
    requires Fits(LED, v)
  {
    var x := Content(LED_VARIANTS, v);
    if v.tag == 0 then PowerLedMode.Auto
    else if v.tag == 1 then PowerLedMode.Custom(x.n)
    else PowerLedMode.Animation(BreathOf(x))
  }

  // the settings record, from its last fields to its first
  const SWITCHES := Pair(Flag, U64)
  const FROM_LED := Pair(LED, SWITCHES)
  const FROM_CHARGE := Pair(CHARGE, FROM_LED)
  const FROM_GPU_FAN := Pair(FAN_MODE, FROM_CHARGE)
  const FROM_CPU_FAN := Pair(FAN_MODE, FROM_GPU_FAN)
  const FROM_KEYBOARD := Pair(LEVEL, FROM_CPU_FAN)
  const SETTINGS := Pair(PROFILE, FROM_KEYBOARD)

  function SettingsVal(x: CurrentSettings): (v: Val)
    ensures Fits(SETTINGS, v) && SettingsOf(v) == x && Cost(SETTINGS, v) <= 56
  {
    Join(PROFILE, FROM_KEYBOARD, ProfileVal(x.powerProfile),
      Join(LEVEL, FROM_CPU_FAN, LevelVal(x.keyboardBacklight),
        Join(FAN_MODE, FROM_GPU_FAN, FanVal(x.fanModeCpu),
          Join(FAN_MODE, FROM_CHARGE, FanVal(x.fanModeGpu),
            Join(CHARGE, FROM_LED, ChargeVal(x.chargeLimit),
              Join(LED, SWITCHES, LedVal(x.ledMode),
                Join(Flag, U64, Truth(x.telemetryEnabled), Num(x.telemetryClientId))))))))
  }

  function SettingsOf(v: Val): CurrentSettings
    requires Fits(SETTINGS, v)
  {
    var r1 := Second(PROFILE, FROM_KEYBOARD, v);
    var r2 := Second(LEVEL, FROM_CPU_FAN, r1);
    var r3 := Second(FAN_MODE, FROM_GPU_FAN, r2);
    var r4 := Second(FAN_MODE, FROM_CHARGE, r3);
    var r5 := Second(CHARGE, FROM_LED, r4);
    var r6 := Second(LED, SWITCHES, r5);
    var r7 := Second(Flag, U64, r6);
    CurrentSettings(ProfileOf(First(PROFILE, FROM_KEYBOARD, v)), LevelOf(First(LEVEL, FROM_CPU_FAN, r1)),
                    FanOf(First(FAN_MODE, FROM_GPU_FAN, r2)), FanOf(First(FAN_MODE, FROM_CHARGE, r3)),
                    ChargeOf(First(CHARGE, FROM_LED, r4)), LedOf(First(LED, SWITCHES, r5)),
                    First(Flag, U64, r6).b, r7.n)
  }

  const COMMAND_VARIANTS := [Unit, Unit, Unit, Unit, Flag, Flag, Unit, Unit, Unit]
  const COMMAND := Enum(COMMAND_VARIANTS)

  function CommandVal(x: DaemonCommand): (v: Val)
    ensures Fits(COMMAND, v) && CommandOf(v) == x && Cost(COMMAND, v) <= 5
  {
    match x
    case RestoreDefaults => Pick(COMMAND_VARIANTS, 0, Nothing)
    case GetSettings => Pick(COMMAND_VARIANTS, 1, Nothing)
    case ApplySettings => Pick(COMMAND_VARIANTS, 2, Nothing)
    case GetTelemetryId => Pick(COMMAND_VARIANTS, 3, Nothing)
    case ActivateTelemetry(on) => Pick(COMMAND_VARIANTS, 4, Truth(on))
    case ActivateProcessSuspend(on) => Pick(COMMAND_VARIANTS, 5, Truth(on))
    case RunPrepareShutdown => Pick(COMMAND_VARIANTS, 6, Nothing)
    case RunPrepareSuspend => Pick(COMMAND_VARIANTS, 7, Nothing)
    case RunPrepareResume => Pick(COMMAND_VARIANTS, 8, Nothing)
  }

  function CommandOf(v: Val): DaemonCommand
    requires Fits(COMMAND, v)
  {
    var x := Content(COMMAND_VARIANTS, v);
    if v.tag == 0 then DaemonCommand.RestoreDefaults
    else if v.tag == 1 then DaemonCommand.GetSettings
    else if v.tag == 2 then DaemonCommand.ApplySettings
    else if v.tag == 3 then DaemonCommand.GetTelemetryId
    else if v.tag == 4 then DaemonCommand.ActivateTelemetry(x.b)
    else if v.tag == 5 then DaemonCommand.ActivateProcessSuspend(x.b)
    else if v.tag == 6 then DaemonCommand.RunPrepareShutdown
    else if v.tag == 7 then DaemonCommand.RunPrepareSuspend
    else DaemonCommand.RunPrepareResume
  }

  const ANSWER_VARIANTS := [SETTINGS, U64]
  const ANSWER := Enum(ANSWER_VARIANTS)

  function AnswerVal(x: DaemonResponse): (v: Val)
    ensures Fits(ANSWER, v) && AnswerOf(v) == x
  {
    match x
    case Settings(s) => Pick(ANSWER_VARIANTS, 0, SettingsVal(s))
    case TelemetryId(id) => Pick(ANSWER_VARIANTS, 1, Num(id))
  }

  function AnswerOf(v: Val): DaemonResponse
    requires Fits(ANSWER, v)
  {
    var x := Content(ANSWER_VARIANTS, v);
    if v.tag == 0 then DaemonResponse.Settings(SettingsOf(x))
    else DaemonResponse.TelemetryId(x.n)
  }

  const FAN_REQUEST := Pair(FAN_INDEX, FAN_MODE)

  function FanRequestVal(fan: FanIndex, mode: FanMode): (v: Val)
    ensures Fits(FAN_REQUEST, v) && FanRequestOf(v) == SetFanMode(fan, mode) && Cost(FAN_REQUEST, v) <= 9
  {
    Join(FAN_INDEX, FAN_MODE, IndexVal(fan), FanVal(mode))
  }

  function FanRequestOf(v: Val): IpcRequest
    requires Fits(FAN_REQUEST, v)
  {
    SetFanMode(IndexOf(First(FAN_INDEX, FAN_MODE, v)), FanOf(Second(FAN_INDEX, FAN_MODE, v)))
  }

  const REQUEST_VARIANTS :=
    [Unit, Unit, Unit, Unit, Unit, Unit, PROFILE, FAN_REQUEST, LEVEL, CHARGE, LED, COMMAND]
  const REQUEST := Enum(REQUEST_VARIANTS)

  function GetterOf(tag: nat): IpcRequest
    requires tag < 6
  {
    [GetSystemState, GetFansRPM, GetTemperatures, GetChargeLimit, GetPowerProfile, GetKeyboardBacklight][tag]
  }

  function GetterVal(x: IpcRequest): (v: Val)
    requires x.GetSystemState? || x.GetFansRPM? || x.GetTemperatures? || x.GetChargeLimit? || x.GetPowerProfile?
        || x.GetKeyboardBacklight?
    ensures Fits(REQUEST, v) && v.tag < 6 && GetterOf(v.tag) == x && Cost(REQUEST, v) == 4
  {
    Pick(REQUEST_VARIANTS,
         match x
         case GetSystemState => 0
         case GetFansRPM => 1
         case GetTemperatures => 2
         case GetChargeLimit => 3
         case GetPowerProfile => 4
         case GetKeyboardBacklight => 5,
         Nothing)
  }

  function RequestVal(x: IpcRequest): (v: Val)
    ensures Fits(REQUEST, v) && RequestOf(v) == x && Cost(REQUEST, v) <= 28
  {
    match x
    case SetPowerProfile(p) => Pick(REQUEST_VARIANTS, 6, ProfileVal(p))
    case SetFanMode(fan, mode) => Pick(REQUEST_VARIANTS, 7, FanRequestVal(fan, mode))
    case SetKeyboardBacklight(k) => Pick(REQUEST_VARIANTS, 8, LevelVal(k))
    case SetChargeLimit(c) => Pick(REQUEST_VARIANTS, 9, ChargeVal(c))
    case SetLedMode(l) => Pick(REQUEST_VARIANTS, 10, LedVal(l))
    case Command(c) => Pick(REQUEST_VARIANTS, 11, CommandVal(c))
    case _ => GetterVal(x)
  }

  function RequestOf(v: Val): IpcRequest
    requires Fits(REQUEST, v)
  {
    var x := Content(REQUEST_VARIANTS, v);
    if v.tag < 6 then GetterOf(v.tag)
    else if v.tag == 6 then IpcRequest.SetPowerProfile(ProfileOf(x))
    else if v.tag == 7 then FanRequestOf(x)
    else if v.tag == 8 then IpcRequest.SetKeyboardBacklight(LevelOf(x))
    else if v.tag == 9 then IpcRequest.SetChargeLimit(ChargeOf(x))
    else if v.tag == 10 then IpcRequest.SetLedMode(LedOf(x))
    else IpcRequest.Command(CommandOf(x))
  }

  const FROM_HRAM := Pair(U16, Str)
  const FROM_REVISION := Pair(Str, FROM_HRAM)
  const INFO := Pair(Str, FROM_REVISION)

  function InfoVal(chip: Text, rev: Text, hram: u16, ver: Text): (v: Val)
    ensures Fits(INFO, v) && InfoOf(v) == SystemInfo(chip, rev, hram, ver)
  {
    Join(Str, FROM_REVISION, Chars(chip),
      Join(Str, FROM_HRAM, Chars(rev),
        Join(U16, Str, Num(hram), Chars(ver))))
  }

  function InfoOf(v: Val): IpcResponse
    requires Fits(INFO, v)
  {
    var r1 := Second(Str, FROM_REVISION, v);
    var r2 := Second(Str, FROM_HRAM, r1);
    var r3 := Second(U16, Str, r2);
    SystemInfo(First(Str, FROM_REVISION, v).s, First(Str, FROM_HRAM, r1).s, First(U16, Str, r2).n, r3.s)
  }

  const TWO_BYTES := Pair(U8, U8)
  const LIMITS := Pair(U8, TWO_BYTES)

  function LimitsVal(min: byte, max: byte, current: byte): (v: Val)
    ensures Fits(LIMITS, v) && LimitsOf(v) == ChargeLimits(min, max, current)
  {
    Join(U8, TWO_BYTES, Num(min), Join(U8, U8, Num(max), Num(current)))
  }

  function LimitsOf(v: Val): IpcResponse
    requires Fits(LIMITS, v)
  {
    var r1 := Second(U8, TWO_BYTES, v);
    ChargeLimits(First(U8, TWO_BYTES, v).n, First(U8, U8, r1).n, Second(U8, U8, r1).n)
  }

  const FANS := Pair(U16, U16)

  function FansVal(cpu: u16, gpu: u16): (v: Val)
    ensures Fits(FANS, v) && FansOf(v) == FanRPM(cpu, gpu)
  {
    Join(U16, U16, Num(cpu), Num(gpu))
  }

  function FansOf(v: Val): IpcResponse
    requires Fits(FANS, v)
  {
    FanRPM(First(U16, U16, v).n, Second(U16, U16, v).n)
  }

  function TempsVal(cpu: byte, sys: byte): (v: Val)
    ensures Fits(TWO_BYTES, v) && TempsOf(v) == Temp(cpu, sys)
  {
    Join(U8, U8, Num(cpu), Num(sys))
  }

  function TempsOf(v: Val): IpcResponse
    requires Fits(TWO_BYTES, v)
  {
    Temp(First(U8, U8, v).n, Second(U8, U8, v).n)
  }

  const RESPONSE_VARIANTS := [Unit, INFO, FANS, TWO_BYTES, LIMITS, LEVEL, PROFILE, ANSWER, Unit, Str]
  const RESPONSE := Enum(RESPONSE_VARIANTS)

  function ResponseVal(x: IpcResponse): (v: Val)
    ensures Fits(RESPONSE, v) && ResponseOf(v) == x
  {
    match x
    case Success => Pick(RESPONSE_VARIANTS, 0, Nothing)
    case SystemInfo(chip, rev, hram, ver) => Pick(RESPONSE_VARIANTS, 1, InfoVal(chip, rev, hram, ver))
    case FanRPM(a, b) => Pick(RESPONSE_VARIANTS, 2, FansVal(a, b))
    case Temp(a, b) => Pick(RESPONSE_VARIANTS, 3, TempsVal(a, b))
    case ChargeLimits(min, max, cur) => Pick(RESPONSE_VARIANTS, 4, LimitsVal(min, max, cur))
    case KeyboardBacklight(k) => Pick(RESPONSE_VARIANTS, 5, LevelVal(k))
    case PowerLimit(p) => Pick(RESPONSE_VARIANTS, 6, ProfileVal(p))
    case FromDaemon(d) => Pick(RESPONSE_VARIANTS, 7, AnswerVal(d))
    case TelemetryDisabledInfo => Pick(RESPONSE_VARIANTS, 8, Nothing)
    case Error(m) => Pick(RESPONSE_VARIANTS, 9, Chars(m))
  }

  function ResponseOf(v: Val): IpcResponse
    requires Fits(RESPONSE, v)
  {
    var x := Content(RESPONSE_VARIANTS, v);
    if v.tag == 0 then IpcResponse.Success
    else if v.tag == 1 then InfoOf(x)
    else if v.tag == 2 then FansOf(x)
    else if v.tag == 3 then TempsOf(x)
    else if v.tag == 4 then LimitsOf(x)
    else if v.tag == 5 then IpcResponse.KeyboardBacklight(LevelOf(x))
    else if v.tag == 6 then IpcResponse.PowerLimit(ProfileOf(x))
    else if v.tag == 7 then IpcResponse.FromDaemon(AnswerOf(x))
    else if v.tag == 8 then IpcResponse.TelemetryDisabledInfo
    else IpcResponse.Error(x.s)
  }

  const WORDS := Pair(U32, U32)

  function WordsVal(x: (u32, u32)): (v: Val)
    ensures Fits(WORDS, v) && WordsOf(v) == x && Cost(WORDS, v) == 8
  {
    Join(U32, U32, Num(x.0), Num(x.1))
  }

  function WordsOf(v: Val): (u32, u32)
    requires Fits(WORDS, v)
  {
    (First(U32, U32, v).n, Second(U32, U32, v).n)
  }

  const PAIR_OF_WORDS := Pair(WORDS, WORDS)
  const STATUS := Pair(PROFILE, PAIR_OF_WORDS)

  function StatusVal(p: PowerProfile, temps: (u32, u32), fans: (u32, u32)): (v: Val)
    ensures Fits(STATUS, v) && StatusOf(v) == (p, temps, fans)
  {
    Join(PROFILE, PAIR_OF_WORDS, ProfileVal(p), Join(WORDS, WORDS, WordsVal(temps), WordsVal(fans)))
  }

  function StatusOf(v: Val): (PowerProfile, (u32, u32), (u32, u32))
    requires Fits(STATUS, v)
  {
    var r1 := Second(PROFILE, PAIR_OF_WORDS, v);
    (ProfileOf(First(PROFILE, PAIR_OF_WORDS, v)), WordsOf(First(WORDS, WORDS, r1)), WordsOf(Second(WORDS, WORDS, r1)))
  }

  // the start-up record, from its last fields to its first
  const FROM_OS := Pair(Str, Str)
  const FROM_CPU := Pair(Str, FROM_OS)
  const FROM_OFFSET := Pair(U16, FROM_CPU)
  const STARTUP := Pair(Str, FROM_OFFSET)

  const DATA_VARIANTS := [STARTUP, STATUS, Str]
  const DATA := Enum(DATA_VARIANTS)

  function DataVal(x: TelemetryData): (v: Val)
    ensures Fits(DATA, v) && DataOf(v) == x
  {
    match x
    case Startup(fw, off, cpu, os, mb) =>
      Pick(DATA_VARIANTS, 0,
           Join(Str, FROM_OFFSET, Chars(fw),
             Join(U16, FROM_CPU, Num(off),
               Join(Str, FROM_OS, Chars(cpu),
                 Join(Str, Str, Chars(os), Chars(mb))))))
    case Status(p, t, f) => Pick(DATA_VARIANTS, 1, StatusVal(p, t, f))
    case Panic(e) => Pick(DATA_VARIANTS, 2, Chars(e))
  }

  function StartupOf(v: Val): TelemetryData
    requires Fits(STARTUP, v)
  {
    var r1 := Second(Str, FROM_OFFSET, v);
    var r2 := Second(U16, FROM_CPU, r1);
    var r3 := Second(Str, FROM_OS, r2);
    TelemetryData.Startup(First(Str, FROM_OFFSET, v).s, First(U16, FROM_CPU, r1).n, First(Str, FROM_OS, r2).s,
                          First(Str, Str, r3).s, Second(Str, Str, r3).s)
  }

  function DataOf(v: Val): TelemetryData
    requires Fits(DATA, v)
  {
    var x := Content(DATA_VARIANTS, v);
    if v.tag == 0 then StartupOf(x)
    else if v.tag == 1 then var (p, t, f) := StatusOf(x); TelemetryData.Status(p, t, f)
    else TelemetryData.Panic(x.s)
  }

  // the same without the motherboard
  const FROM_CPU_V1 := Pair(Str, Str)
  const FROM_OFFSET_V1 := Pair(U16, FROM_CPU_V1)
  const STARTUP_V1 := Pair(Str, FROM_OFFSET_V1)

  const DATA_V1_VARIANTS := [STARTUP_V1, STATUS, Str]
  const DATA_V1 := Enum(DATA_V1_VARIANTS)

  function DataV1Val(x: TelemetryDataV1): (v: Val)
    ensures Fits(DATA_V1, v) && DataV1Of(v) == x
  {
    match x
    case StartupV1(fw, off, cpu, os) =>
      Pick(DATA_V1_VARIANTS, 0,
           Join(Str, FROM_OFFSET_V1, Chars(fw),
             Join(U16, FROM_CPU_V1, Num(off),
               Join(Str, Str, Chars(cpu), Chars(os)))))
    case StatusV1(p, t, f) => Pick(DATA_V1_VARIANTS, 1, StatusVal(p, t, f))
    case PanicV1(e) => Pick(DATA_V1_VARIANTS, 2, Chars(e))
  }

  function StartupV1Of(v: Val): TelemetryDataV1
    requires Fits(STARTUP_V1, v)
  {
    var r1 := Second(Str, FROM_OFFSET_V1, v);
    var r2 := Second(U16, FROM_CPU_V1, r1);
    TelemetryDataV1.StartupV1(First(Str, FROM_OFFSET_V1, v).s, First(U16, FROM_CPU_V1, r1).n,
                              First(Str, Str, r2).s, Second(Str, Str, r2).s)
  }

  function DataV1Of(v: Val): TelemetryDataV1
    requires Fits(DATA_V1, v)
  {
    var x := Content(DATA_V1_VARIANTS, v);
    if v.tag == 0 then StartupV1Of(x)
    else if v.tag == 1 then var (p, t, f) := StatusOf(x); TelemetryDataV1.StatusV1(p, t, f)
    else TelemetryDataV1.PanicV1(x.s)
  }

  const PAYLOAD := Pair(U64, DATA)

  function PayloadVal(x: Payload): (v: Val)
    ensures Fits(PAYLOAD, v) && PayloadOf(v) == x
  {
    Join(U64, DATA, Num(x.id), DataVal(x.data))
  }

  function PayloadOf(v: Val): Payload
    requires Fits(PAYLOAD, v)
  {
    var r1 := Second(U64, DATA, v);
    Payload.Payload(First(U64, DATA, v).n, DataOf(r1))
  }

  const PAYLOAD_V1 := Pair(U64, DATA_V1)

  function PayloadV1Val(x: PayloadV1): (v: Val)
    ensures Fits(PAYLOAD_V1, v) && PayloadV1Of(v) == x
  {
    Join(U64, DATA_V1, Num(x.id), DataV1Val(x.data))
  }

  function PayloadV1Of(v: Val): PayloadV1
    requires Fits(PAYLOAD_V1, v)
  {
    var r1 := Second(U64, DATA_V1, v);
    PayloadV1.PayloadV1(First(U64, DATA_V1, v).n, DataV1Of(r1))
  }

  // ---- Encoding and decoding messages ----

  function EncodeSettings(x: CurrentSettings): seq<byte> { Encode(SETTINGS, SettingsVal(x)) }

  function DecodeSettings(bytes: seq<byte>): Io<(CurrentSettings, seq<byte>)> {
    var (v, rest) :- Decode(SETTINGS, Source(bytes, Unlimited));
    Done((SettingsOf(v), rest.bytes))
  }

  lemma SettingsRoundTrip(x: CurrentSettings, rest: seq<byte>)
    ensures DecodeSettings(EncodeSettings(x) + rest) == Done((x, rest))
  {
    RoundTrip(SETTINGS, SettingsVal(x), rest, Unlimited);
  }

  /** A settings file that was cut while it was written cannot be read back as any settings. */
  lemma TornSettingsAreUnusable(x: CurrentSettings, k: nat)
    requires k < |EncodeSettings(x)|
    ensures DecodeSettings(EncodeSettings(x)[..k]).Failed?
  {
    ProperPrefixFails(SETTINGS, SettingsVal(x), k, Unlimited);
  }

  function EncodeRequest(x: IpcRequest): seq<byte> { Encode(REQUEST, RequestVal(x)) }

  function DecodeRequest(bytes: seq<byte>): Io<(IpcRequest, seq<byte>)> {
    var (v, rest) :- Decode(REQUEST, Source(bytes, Unlimited));
    Done((RequestOf(v), rest.bytes))
  }

  lemma RequestRoundTrip(x: IpcRequest, rest: seq<byte>)
    ensures DecodeRequest(EncodeRequest(x) + rest) == Done((x, rest))
  {
    RoundTrip(REQUEST, RequestVal(x), rest, Unlimited);
  }

  function EncodeResponse(x: IpcResponse): seq<byte> { Encode(RESPONSE, ResponseVal(x)) }

  function DecodeResponse(bytes: seq<byte>): Io<(IpcResponse, seq<byte>)> {
    var (v, rest) :- Decode(RESPONSE, Source(bytes, Unlimited));
    Done((ResponseOf(v), rest.bytes))
  }

  lemma ResponseRoundTrip(x: IpcResponse, rest: seq<byte>)
    ensures DecodeResponse(EncodeResponse(x) + rest) == Done((x, rest))
  {
    RoundTrip(RESPONSE, ResponseVal(x), rest, Unlimited);
  }
}
