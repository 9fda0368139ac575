/** Requests, responses and telemetry payloads: ipc/src/lib.rs and ipc/src/structs.rs. */
module Messages {
  import opened Bytes
  import opened Settings

  predicate Continuation(b: byte) { 0x80 <= b <= 0xBF }

  /**
   * Length of the well-formed UTF-8 sequence at the front of `s` (Table 3-7 of the Unicode Standard), 0
   * if there is none.
   */
  function Utf8Head(s: seq<byte>): (n: nat)
    ensures n <= |s|
  {
    if |s| >= 1 && s[0] <= 0x7F then 1
    else if |s| >= 2 && 0xC2 <= s[0] <= 0xDF && Continuation(s[1]) then 2
    else if |s| >= 3 && Continuation(s[2])
            && (if s[0] == 0xE0 then 0xA0 <= s[1] <= 0xBF
                else if s[0] == 0xED then 0x80 <= s[1] <= 0x9F
                else 0xE1 <= s[0] <= 0xEF && Continuation(s[1])) then 3
    else if |s| >= 4 && Continuation(s[2]) && Continuation(s[3])
            && (if s[0] == 0xF0 then 0x90 <= s[1] <= 0xBF
                else if s[0] == 0xF4 then 0x80 <= s[1] <= 0x8F
                else 0xF1 <= s[0] <= 0xF3 && Continuation(s[1])) then 4
    else 0
  }

  predicate ValidUtf8(s: seq<byte>) {
    s == [] || (Utf8Head(s) > 0 && ValidUtf8(s[Utf8Head(s)..]))
  }

  // ---- The reference: code points ----

  /** Unicode scalar values. */
  predicate Scalar(c: nat) { c <= 0xD7FF || 0xE000 <= c <= 0x10FFFF }

  /** A code point in UTF-8. */
  function Utf8(c: nat): (s: seq<byte>)
    requires Scalar(c)
    ensures 1 <= |s| <= 4
  {
    if c <= 0x7F then [c]
    else if c <= 0x7FF then [0xC0 + c / 64, 0x80 + c % 64]
    else if c <= 0xFFFF then [0xE0 + c / 64 / 64, 0x80 + c / 64 % 64, 0x80 + c % 64]
    else [0xF0 + c / 64 / 64 / 64, 0x80 + c / 64 / 64 % 64, 0x80 + c / 64 % 64, 0x80 + c % 64]
  }

  ghost predicate AllScalar(cs: seq<nat>) { forall i :: 0 <= i < |cs| ==> Scalar(cs[i]) }

  function Utf8All(cs: seq<nat>): seq<byte>
    requires AllScalar(cs)
  {
    if cs == [] then [] else Utf8(cs[0]) + Utf8All(cs[1..])
  }

  lemma HeadOfScalar(c: nat, rest: seq<byte>)
    requires Scalar(c)
    ensures Utf8Head(Utf8(c) + rest) == |Utf8(c)|
  {
    var s := Utf8(c) + rest;
    assert forall i :: 0 <= i < |Utf8(c)| ==> s[i] == Utf8(c)[i];
  }

  lemma SixBits(high: nat, low: nat)
    requires low < 64
    ensures (64 * high + low) / 64 == high && (64 * high + low) % 64 == low
  {
  }

  lemma TwoBytes(s: seq<byte>) returns (c: nat)
    requires Utf8Head(s) == 2
    ensures Scalar(c) && Utf8(c) == s[..2]
  {
    var a: nat, b: nat := s[0] - 0xC0, s[1] - 0x80;
    SixBits(a, b);
    c := 64 * a + b;
  }

  lemma ThreeBytes(s: seq<byte>) returns (c: nat)
    requires Utf8Head(s) == 3
    ensures Scalar(c) && Utf8(c) == s[..3]
  {
    var a: nat, x: nat, y: nat := s[0] - 0xE0, s[1] - 0x80, s[2] - 0x80;
    SixBits(a, x);
    SixBits(64 * a + x, y);
    c := 64 * (64 * a + x) + y;
    assert 0x800 <= c <= 0xFFFF && !(0xD800 <= c <= 0xDFFF);
  }

  lemma FourBytes(s: seq<byte>) returns (c: nat)
    requires Utf8Head(s) == 4
    ensures Scalar(c) && Utf8(c) == s[..4]
  {
    var a: nat, x: nat, y: nat, z: nat := s[0] - 0xF0, s[1] - 0x80, s[2] - 0x80, s[3] - 0x80;
    SixBits(a, x);
    SixBits(64 * a + x, y);
    SixBits(64 * (64 * a + x) + y, z);
    c := 64 * (64 * (64 * a + x) + y) + z;
    assert 0x1_0000 <= c <= 0x10_FFFF;
  }

  /** The code point at the front of `s`. */
  lemma ScalarOfHead(s: seq<byte>) returns (c: nat)
    requires Utf8Head(s) > 0
    ensures Scalar(c) && Utf8(c) == s[..Utf8Head(s)]
  {
    var n := Utf8Head(s);
    if n == 1 {
      c := s[0];
    } else if n == 2 {
      c := TwoBytes(s);
    } else if n == 3 {
      c := ThreeBytes(s);
    } else {
      c := FourBytes(s);
    }
  }

  lemma {:induction false} EncodedIsValid(cs: seq<nat>)
    requires AllScalar(cs)
    ensures ValidUtf8(Utf8All(cs))
  {
    if cs != [] {
      EncodedIsValid(cs[1..]);
      var s := Utf8All(cs);
      HeadOfScalar(cs[0], Utf8All(cs[1..]));
      assert s[|Utf8(cs[0])|..] == Utf8All(cs[1..]);
    }
  }

  lemma {:induction false} ValidIsEncoded(s: seq<byte>) returns (cs: seq<nat>)
    requires ValidUtf8(s)
    ensures AllScalar(cs) && Utf8All(cs) == s
    decreases |s|
  {
    if s == [] {
      cs := [];
    } else {
      var c := ScalarOfHead(s);
      var rest := ValidIsEncoded(s[Utf8Head(s)..]);
      cs := [c] + rest;
      assert cs[1..] == rest && s == s[..Utf8Head(s)] + s[Utf8Head(s)..];
    }
  }

  /** A byte string is accepted as text exactly when it encodes some code points. */
  lemma ValidUtf8Iff(s: seq<byte>)
    ensures ValidUtf8(s) <==> exists cs :: AllScalar(cs) && Utf8All(cs) == s
  {
    if ValidUtf8(s) {
      var cs := ValidIsEncoded(s);
    }
    if cs :| AllScalar(cs) && Utf8All(cs) == s {
      EncodedIsValid(cs);
    }
  }

  /** A Rust `String` short enough for its length to be a 64-bit number. */
  type Text = s: seq<byte> | ValidUtf8(s) && |s| < 0x1_0000_0000_0000_0000 witness []

  lemma {:induction false} AsciiIsUtf8(s: seq<byte>)
    requires forall i :: 0 <= i < |s| ==> s[i] <= 0x7F
    ensures ValidUtf8(s)
  {
    if s != [] {
      AsciiIsUtf8(s[1..]);
      assert Utf8Head(s) == 1;
    }
  }

  function HexDigit(n: nat): byte
    requires n < 16
  {
    if n < 10 then 0x30 + n else 0x41 + n - 10
  }

  /** `{:02X}`. */
  function Hex2(b: byte): (t: Text)
    ensures |t| == 2
  {
    var s := [HexDigit(b / 16), HexDigit(b % 16)];
    AsciiIsUtf8(s);
    s
  }

  /** `IT{:02X}{:02X}`. */
  function ChipName(id1: byte, id2: byte): (t: Text)
    ensures |t| == 6
  {
    var s := [0x49, 0x54, HexDigit(id1 / 16), HexDigit(id1 % 16), HexDigit(id2 / 16), HexDigit(id2 % 16)];
    AsciiIsUtf8(s);
    s
  }

  /** `IT{:02X}{:02X}-{:02X}`. */
  function FirmwareName(id1: byte, id2: byte, ver: byte): (t: Text)
    ensures |t| == 9
  {
    var s := [0x49, 0x54, HexDigit(id1 / 16), HexDigit(id1 % 16), HexDigit(id2 / 16), HexDigit(id2 % 16),
              0x2D, HexDigit(ver / 16), HexDigit(ver % 16)];
    AsciiIsUtf8(s);
    s
  }

  /** The names determine the identifiers. */
  lemma NamesIdentifyTheChip(a: (byte, byte, byte), b: (byte, byte, byte))
    ensures ChipName(a.0, a.1) == ChipName(b.0, b.1) && Hex2(a.2) == Hex2(b.2) <==> a == b
    ensures FirmwareName(a.0, a.1, a.2) == FirmwareName(b.0, b.1, b.2) <==> a == b
  {
    var p, q := ChipName(a.0, a.1), ChipName(b.0, b.1);
    if p == q {
      assert p[2] == q[2] && p[3] == q[3] && p[4] == q[4] && p[5] == q[5];
    }
    var v, w := Hex2(a.2), Hex2(b.2);
    if v == w {
      assert v[0] == w[0] && v[1] == w[1];
    }
    var f, g := FirmwareName(a.0, a.1, a.2), FirmwareName(b.0, b.1, b.2);
    if f == g {
      assert f[2] == g[2] && f[3] == g[3] && f[4] == g[4] && f[5] == g[5] && f[7] == g[7] && f[8] == g[8];
    }
  }

  /** The value of a digit `0` to `9` or `A` to `F`. */
  function DigitValue(c: byte): Option<nat> {
    if 0x30 <= c <= 0x39 then Some(c - 0x30) else if 0x41 <= c <= 0x46 then Some(c - 0x41 + 10) else None
  }

  /** The text at `i` reads as `b`, most significant digit first. */
  predicate ReadsAs(t: Text, i: nat, b: byte)
    requires i + 2 <= |t|
  {
    && DigitValue(t[i]).Some? && DigitValue(t[i + 1]).Some?
    && 16 * DigitValue(t[i]).value + DigitValue(t[i + 1]).value == b
  }

  /** The names spell the identifiers in capital hexadecimal, after the letters `IT`. */
  lemma NamesSpellTheChip(id1: byte, id2: byte, ver: byte)
    ensures ReadsAs(Hex2(ver), 0, ver)
    ensures var n := ChipName(id1, id2); n[..2] == [0x49, 0x54] && ReadsAs(n, 2, id1) && ReadsAs(n, 4, id2)
    ensures var f := FirmwareName(id1, id2, ver); f == ChipName(id1, id2) + [0x2D] + Hex2(ver)
  {
  }

  /** The daemon's package version, 0.4.0. */
  function DaemonVersion(): Text {
    var s := [0x30, 0x2E, 0x34, 0x2E, 0x30];
    AsciiIsUtf8(s);
    s
  }

  datatype DaemonCommand =
    | RestoreDefaults
    | GetSettings
    | ApplySettings
    | GetTelemetryId
    | ActivateTelemetry(on: bool)
    | ActivateProcessSuspend(on: bool)
    | RunPrepareShutdown
    | RunPrepareSuspend
    | RunPrepareResume

  datatype DaemonResponse = Settings(settings: CurrentSettings) | TelemetryId(id: u64)

  datatype IpcRequest =
    | GetSystemState
    | GetFansRPM
    | GetTemperatures
    | GetChargeLimit
    | GetPowerProfile
    | GetKeyboardBacklight
    | SetPowerProfile(profile: PowerProfile)
    | SetFanMode(fan: FanIndex, mode: FanMode)
    | SetKeyboardBacklight(level: KeyboardLevel)
    | SetChargeLimit(limit: ChargeLimit)
    | SetLedMode(led: PowerLedMode)
    | Command(command: DaemonCommand)

  datatype IpcResponse =
    | Success
    | SystemInfo(chip: Text, revision: Text, hram: u16, version: Text)
    | FanRPM(cpuRpm: u16, gpuRpm: u16)
    | Temp(cpuTemp: byte, sysTemp: byte)
    | ChargeLimits(min: byte, max: byte, current: byte)
    | KeyboardBacklight(level: KeyboardLevel)
    | PowerLimit(profile: PowerProfile)
    | FromDaemon(response: DaemonResponse)
    | TelemetryDisabledInfo
    | Error(message: Text)

  /** `TelemetryData`, the current format. */
  datatype TelemetryData =
    | Startup(firmware: Text, offset: u16, cpu: Text, os: Text, motherboard: Text)
    | Status(profile: PowerProfile, temps: (u32, u32), fans: (u32, u32))
    | Panic(error: Text)

  /** `TelemetryDataV1`, before the motherboard field was added. */
  datatype TelemetryDataV1 =
    | StartupV1(firmware: Text, offset: u16, cpu: Text, os: Text)
    | StatusV1(profile: PowerProfile, temps: (u32, u32), fans: (u32, u32))
    | PanicV1(error: Text)

  datatype Payload = Payload(id: u64, data: TelemetryData)

  datatype PayloadV1 = PayloadV1(id: u64, data: TelemetryDataV1)
}
