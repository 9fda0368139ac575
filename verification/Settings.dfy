/** The settings exchanged over IPC and kept by the daemon: ipc/src/structs.rs. */
module Settings {
  import opened Bytes

  datatype PowerProfile = Silent | Default | Performance {
    function Code(): byte {
      match this case Silent => 1 case Default => 2 case Performance => 3
    }
  }

  datatype KeyboardLevel = Off | Low | Medium | High | Custom(v: byte)

  datatype FanMode = Auto | Full | Custom(duty: byte)

  datatype FanIndex = Cpu | Gpu {
    /** The HRAM offset of the fan's duty register. */
    function Offset(): u16 {
      match this case Cpu => 0x4B case Gpu => 0x4D
    }
  }

  datatype ChargeLimit = FullCapacity | HighCapacity | Balanced | MaximumLifespan | DeskMode {
    function AsPercent(): (byte, byte) {
      match this
      case FullCapacity => (0, 0)
      case HighCapacity => (90, 95)
      case Balanced => (70, 80)
      case MaximumLifespan => (55, 60)
      case DeskMode => (40, 50)
    }
  }

  function FromPredefined(min: byte, max: byte): Option<ChargeLimit> {
    if min > max then None else
    match (min, max)
    case (0, 0) => Some(FullCapacity)
    case (90, 95) => Some(HighCapacity)
    case (70, 80) => Some(Balanced)
    case (55, 60) => Some(MaximumLifespan)
    case (40, 50) => Some(DeskMode)
    case _ => None
  }

  /** Decoding inverts `AsPercent`, and only the five predefined pairs decode. */
  lemma FromPredefinedInverts(min: byte, max: byte, limit: ChargeLimit)
    ensures FromPredefined(min, max) == Some(limit) <==> limit.AsPercent() == (min, max)
  {
  }

  datatype BreathBrightness = Max25Percent | Max50Percent | Max75Percent | Max100Percent {
    function Code(): byte {
      match this case Max25Percent => 0 case Max50Percent => 1 case Max75Percent => 2 case Max100Percent => 3
    }
  }

  datatype BreathStep = Slow | Medium | Fast | Instant {
    function Code(): byte {
      match this case Slow => 0 case Medium => 1 case Fast => 2 case Instant => 3
    }
  }

  datatype BreathDelay = Ms15 | Ms125 | Ms250 | Sec0_5 | Sec1 | Sec2 | Sec4 {
    function Code(): byte {
      match this
      case Ms15 => 0 case Ms125 => 1 case Ms250 => 2 case Sec0_5 => 3 case Sec1 => 4 case Sec2 => 5 case Sec4 => 6
    }
  }

  datatype BreathConfig = BreathConfig(
    maxBrightness: BreathBrightness, stepUp: BreathStep, stepDown: BreathStep,
    delayAtMax: BreathDelay, delayAtMin: BreathDelay)
  {
    /** PWM0LCR1: bits 5-4 maximum brightness, 3-2 step down, 1-0 step up. */
    function StepByte(): byte {
      maxBrightness.Code() * 16 + stepDown.Code() * 4 + stepUp.Code()
    }

    /** PWM0LCR2: bits 6-4 delay at maximum, 2-0 delay at minimum. */
    function DelayByte(): byte {
      delayAtMax.Code() * 16 + delayAtMin.Code()
    }
  }

  const SLEEP_BREATH := BreathConfig(Max25Percent, Slow, Slow, Sec0_5, Sec1)

  /** The two control bytes determine the animation. */
  lemma BreathBytesAreInjective(a: BreathConfig, b: BreathConfig)
    requires a.StepByte() == b.StepByte() && a.DelayByte() == b.DelayByte()
    ensures a == b
  {
    assert a.stepUp.Code() == a.StepByte() % 4 && b.stepUp.Code() == b.StepByte() % 4;
    assert a.delayAtMin.Code() == a.DelayByte() % 16 && b.delayAtMin.Code() == b.DelayByte() % 16;
  }

  datatype PowerLedMode = Auto | Custom(brightness: byte) | Animation(config: BreathConfig)

  datatype CurrentSettings = CurrentSettings(
    powerProfile: PowerProfile,
    keyboardBacklight: KeyboardLevel,
    fanModeCpu: FanMode,
    fanModeGpu: FanMode,
    chargeLimit: ChargeLimit,
    ledMode: PowerLedMode,
    telemetryEnabled: bool,
    telemetryClientId: u64)

  /** `CurrentSettings::default()`; the client id comes from hashing the clock. */
  function DefaultSettings(id: u64): CurrentSettings {
    CurrentSettings(Default, KeyboardLevel.Medium, FanMode.Auto, FanMode.Auto,
                    FullCapacity, PowerLedMode.Auto, true, id)
  }
}
