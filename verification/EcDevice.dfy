/** The hardware operations of daemon/src/ec/hw and the detection of `EcDevice::new`, over the port protocol. */
module EcDevice {
  import opened Bytes
  import opened EcPort
  import opened EcRegs
  import opened EcActs
  import opened Settings

  // ---- Decoding registers ----

  function KeyboardOf(t: Table, e: Ec): Io<KeyboardLevel> {
    var v := e.At(t, Kbd);
    if v == 0x00 then Done(Off)
    else if v == 0x01 then Done(Low)
    else if v == 0x02 then Done(KeyboardLevel.Medium)
    else if v == 0x03 then Done(High)
    else if v == 0xFF then Done(KeyboardLevel.Custom(e.At(t, KbdVal)))
    else Failed
  }

  function ProfileOf(t: Table, e: Ec): Io<PowerProfile> {
    var v := e.At(t, Power);
    if v == 1 then Done(Silent) else if v == 2 then Done(Default) else if v == 3 then Done(Performance) else Failed
  }

  function ChargeOf(t: Table, e: Ec): (byte, byte) { (e.At(t, LimitMin), e.At(t, LimitMax)) }

  function ChipIds(t: Table, e: Ec): (byte, byte, byte) { (e.At(t, ChipId1), e.At(t, ChipId2), e.At(t, ChipVer)) }

  function RpmOf(t: Table, e: Ec, fan: FanIndex): u16 { e.At(t, FanMsb(fan)) as int * 256 + e.At(t, FanLsb(fan)) }

  // ---- Detection ----

  const PROBE_PORTS: seq<u16> := [0x2E, 0x4E, 0x6E]
  const PROBE_ATTEMPTS := 5

  predicate KnownChip(id: byte) { id in {0x55, 0x81, 0x85, 0x89, 0x90} }

  /** A known chip sits at one of the ports the daemon tries. */
  predicate Recognised(base: u16, m: Memory) { base in PROBE_PORTS && KnownChip(m[0x2000]) }

  predicate PlausibleTemp(t: byte) { 0x10 < t < 0x50 }

  /** The first base, from the `i`th on, whose CPU temperature cell looks like a temperature. */
  function FirstWindow(m: Memory, i: nat): Option<Window>
    decreases |HRAM_BASES| - i
  {
    if i >= |HRAM_BASES| then None
    else if PlausibleTemp(m[HRAM_BASES[i] + 0x70]) then Some(HRAM_BASES[i])
    else FirstWindow(m, i + 1)
  }

  /** The window, base by base. */
  function WarmWindow(m: Memory): Option<Window> {
    if 0x10 < m[0xC470] < 0x50 then Some(0xC400)
    else if 0x10 < m[0xC070] < 0x50 then Some(0xC000)
    else if 0x10 < m[0x0470] < 0x50 then Some(0x0400)
    else if 0x10 < m[0x0070] < 0x50 then Some(0x0000)
    else if 0x10 < m[0xE070] < 0x50 then Some(0xE000)
    else None
  }

  lemma WindowIsTheFirstWarm(m: Memory)
    ensures FirstWindow(m, 0) == WarmWindow(m)
  {
    assert FirstWindow(m, 5) == None;
    assert FirstWindow(m, 4) == if PlausibleTemp(m[0xE070]) then Some(0xE000) else None;
    assert FirstWindow(m, 3) == if PlausibleTemp(m[0x0070]) then Some(0x0000) else FirstWindow(m, 4);
    assert FirstWindow(m, 2) == if PlausibleTemp(m[0x0470]) then Some(0x0400) else FirstWindow(m, 3);
    assert FirstWindow(m, 1) == if PlausibleTemp(m[0xC070]) then Some(0xC000) else FirstWindow(m, 2);
  }

  function FromOption<T>(o: Option<T>): Io<T> {
    match o case Some(v) => Done(v) case None => Failed
  }

  class EcDevice {
    const io: PortIo
    const port: u16
    const layout: Layout
    const table: Table
    var ledCustom: bool

    constructor (io: PortIo, port: u16, layout: Layout)
      requires port == io.base
      ensures this.io == io && this.port == port && this.layout == layout && table == TableOf(layout) && !ledCustom
    {
      this.io, this.port, this.layout, table, ledCustom := io, port, layout, TableOf(layout), false;
    }

    ghost predicate Valid()
    {
      port == io.base && table == TableOf(layout)
    }

    ghost function Now(): Ec
      reads this, io
    {
      Ec(io.mem, ledCustom)
    }

    method Read(reg: Reg) returns (r: Io<byte>)
      requires Valid()
      modifies io
      ensures Now() == old(Now())
      ensures r.Done? ==> r.value == Now().At(table, reg)
      ensures old(io.Clean()) ==> r.Done? && io.Clean()
    {
      r := io.ReadReg(port, table(reg));
    }

    method Put(reg: Reg, val: byte) returns (r: Io<()>)
      requires Valid()
      modifies io
      ensures Now() == if r.Done? then DoAct(table, old(Now()), Write(reg, val)) else old(Now())
      ensures old(io.Clean()) ==> r.Done? && io.Clean()
    {
      r := io.WriteReg(port, table(reg), val);
    }

    /** Write number `k` of the operation `acts`, which began in `before`. */
    method WriteStep(reg: Reg, val: byte, ghost before: Ec, ghost acts: seq<Act>, ghost k: nat) returns (r: Io<()>)
      requires Valid() && k < |acts| && acts[k] == Write(reg, val) && Now() == Do(table, before, acts[..k])
      modifies io
      ensures r.Done? ==> Now() == Do(table, before, acts[..k + 1])
      ensures r.Failed? ==> Partly(table, before, Now(), acts, false)
      ensures old(io.Clean()) ==> r.Done? && io.Clean()
    {
      DoExtend(table, before, acts, k);
      r := Put(reg, val);
    }

    method SetFlag(on: bool, ghost before: Ec, ghost acts: seq<Act>, ghost k: nat)
      requires k < |acts| && acts[k] == StoreFlag(on) && Now() == Do(table, before, acts[..k])
      modifies this
      ensures Now() == Do(table, before, acts[..k + 1])
    {
      DoExtend(table, before, acts, k);
      ledCustom := on;
    }

    // ---- kbd_backlight.rs ----

    method ReadKeyboardBacklight() returns (r: Io<KeyboardLevel>)
      requires Valid()
      modifies io
      ensures Now() == old(Now())
      ensures r.Done? ==> r == KeyboardOf(table, Now())
      ensures old(io.Clean()) ==> r == KeyboardOf(table, Now()) && io.Clean()
    {
      var v :- Read(Kbd);
      if v == 0x00 {
        return Done(Off);
      } else if v == 0x01 {
        return Done(Low);
      } else if v == 0x02 {
        return Done(KeyboardLevel.Medium);
      } else if v == 0x03 {
        return Done(High);
      } else if v == 0xFF {
        var custom :- Read(KbdVal);
        return Done(KeyboardLevel.Custom(custom));
      }
      return Failed;
    }

    method ApplyKeyboardBacklight(level: KeyboardLevel) returns (r: Io<()>)
      requires Valid()
      modifies io
      ensures Partly(table, old(Now()), Now(), KeyboardActs(level), r.Done?)
      ensures old(io.Clean()) ==> r.Done? && io.Clean()
    {
      ghost var before, acts := Now(), KeyboardActs(level);
      assert acts[..0] == [] && acts[..|acts|] == acts;
      match level {
      case Off => r := WriteStep(Kbd, 0x00, before, acts, 0);
      case Low => r := WriteStep(Kbd, 0x01, before, acts, 0);
      case Medium => r := WriteStep(Kbd, 0x02, before, acts, 0);
      case High => r := WriteStep(Kbd, 0x03, before, acts, 0);
      case Custom(v) =>
        var _ :- WriteStep(KbdTimeout, 0xFF, before, acts, 0);   // disable the keyboard timer
        var _ :- WriteStep(A4Mux, 0x00, before, acts, 1);        // and enable PWM
        var _ :- WriteStep(Kbd, 0xFF, before, acts, 2);
        r := WriteStep(KbdVal, v, before, acts, 3);
      }
    }

    // ---- led.rs ----

    method ResetLedAnimEngine(ghost before: Ec, ghost acts: seq<Act>, ghost k: nat) returns (r: Io<()>)
      requires Valid() && k + 3 <= |acts| && acts[k..k + 3] == RESET_ENGINE && Now() == Do(table, before, acts[..k])
      modifies io
      ensures r.Done? ==> Now() == Do(table, before, acts[..k + 3])
      ensures r.Failed? ==> Partly(table, before, Now(), acts, false)
      ensures old(io.Clean()) ==> r.Done? && io.Clean()
    {
      assert acts[k] == RESET_ENGINE[0] && acts[k + 1] == RESET_ENGINE[1] && acts[k + 2] == RESET_ENGINE[2];
      var _ :- WriteStep(BreathEn, 0x00, before, acts, k);
      var _ :- WriteStep(Prescaler, 0x00, before, acts, k + 1);
      r := WriteStep(Cycle, 0xFF, before, acts, k + 2);
    }

    /** The writes skipped once the LED is known to be in custom mode. */
    method EnsureCustom(ghost before: Ec, ghost acts: seq<Act>, ghost k: nat) returns (r: Io<()>)
      requires Valid() && k == (if ledCustom then 0 else 3) && k <= |acts|
      requires acts[..k] == (if ledCustom then [] else TAKE_OVER) && Now() == before
      modifies this, io
      ensures r.Done? ==> Now() == Do(table, before, acts[..k])
      ensures r.Failed? ==> Partly(table, before, Now(), acts, false)
      ensures old(io.Clean()) ==> r.Done? && io.Clean()
    {
      assert acts[..0] == [];
      if !ledCustom {
        assert acts[0] == TAKE_OVER[0] && acts[1] == TAKE_OVER[1] && acts[2] == TAKE_OVER[2];
        var _ :- WriteStep(Bypass, 0x01, before, acts, 0);
        var _ :- WriteStep(A0Mux, 0x00, before, acts, 1);
        SetFlag(true, before, acts, 2);
      }
      return Done(());
    }

    /** The five writes that start the hardware breathing engine. */
    method LaunchBreathing(config: BreathConfig, ghost before: Ec, ghost acts: seq<Act>, ghost k: nat)
      returns (r: Io<()>)
      requires Valid() && k + 5 == |acts| && acts[k..] == BreathActs(config) && Now() == Do(table, before, acts[..k])
      modifies io
      ensures Partly(table, before, Now(), acts, r.Done?)
      ensures old(io.Clean()) ==> r.Done? && io.Clean()
    {
      var tail := BreathActs(config);
      assert acts[k] == tail[0] && acts[k + 1] == tail[1] && acts[k + 2] == tail[2] && acts[k + 3] == tail[3]
          && acts[k + 4] == tail[4];
      var _ :- WriteStep(Prescaler, 0x00, before, acts, k);
      var _ :- WriteStep(Cycle, 0xFF, before, acts, k + 1);
      var _ :- WriteStep(BreathStepReg, config.StepByte(), before, acts, k + 2);
      var _ :- WriteStep(BreathDelayReg, config.DelayByte(), before, acts, k + 3);
      r := WriteStep(BreathEn, 0x01, before, acts, k + 4);
      assert acts[..|acts|] == acts;
    }

    method ApplyLedMode(mode: PowerLedMode) returns (r: Io<()>)
      requires Valid()
      modifies this, io
      ensures Partly(table, old(Now()), Now(), LedActs(old(ledCustom), mode), r.Done?)
      ensures old(io.Clean()) ==> r.Done? && io.Clean()
    {
      ghost var before, acts := Now(), LedActs(ledCustom, mode);
      ghost var k := if ledCustom then 0 else 3;
      assert acts[..|acts|] == acts;
      match mode {
        case Auto =>
          assert acts[..0] == [] && acts[1..4] == RESET_ENGINE;
          var _ :- WriteStep(Bypass, 0x00, before, acts, 0);
          var _ :- ResetLedAnimEngine(before, acts, 1);
          SetFlag(false, before, acts, 4);
          return Done(());
        case Custom(brightness) =>
          assert acts[k..k + 3] == RESET_ENGINE;
          var _ :- EnsureCustom(before, acts, k);
          var _ :- ResetLedAnimEngine(before, acts, k);
          r := WriteStep(LedDuty, brightness, before, acts, k + 3);
        case Animation(config) =>
          assert acts[k..k + 3] == RESET_ENGINE && acts[k + 3..] == BreathActs(config);
          var _ :- EnsureCustom(before, acts, k);
          var _ :- ResetLedAnimEngine(before, acts, k);
          r := LaunchBreathing(config, before, acts, k + 3);
      }
    }

    method ApplyBatteryLeds(orange: bool, white: bool) returns (r: Io<()>)
      requires Valid()
      modifies io
      ensures Now() == if r.Done? then DoAct(table, old(Now()),
          Write(PortA, BatteryByte(old(Now()).At(table, PortA), orange, white)))
                       else old(Now())
      ensures old(io.Clean()) ==> r.Done? && io.Clean()
    {
      var portA :- Read(PortA);
      portA := Masked(portA, ORANGE_LED, orange);
      portA := Masked(portA, WHITE_LED, white);
      r := Put(PortA, portA);
    }

    // ---- power_profile.rs, flexicharger.rs, fan.rs, getters.rs ----

    method ApplyPowerProfile(profile: PowerProfile) returns (r: Io<()>)
      requires Valid()
      modifies io
      ensures Partly(table, old(Now()), Now(), ProfileActs(profile), r.Done?)
      ensures old(io.Clean()) ==> r.Done? && io.Clean()
    {
      ghost var before, acts := Now(), ProfileActs(profile);
      assert acts[..0] == [] && acts[..1] == acts;
      r := WriteStep(Power, profile.Code(), before, acts, 0);
    }

    method ReadPowerProfile() returns (r: Io<PowerProfile>)
      requires Valid()
      modifies io
      ensures Now() == old(Now())
      ensures r.Done? ==> r == ProfileOf(table, Now())
      ensures old(io.Clean()) ==> r == ProfileOf(table, Now()) && io.Clean()
    {
      var v :- Read(Power);
      return if v == 1 then Done(Silent) else if v == 2 then Done(Default) else if v == 3 then Done(Performance)
          else Failed;
    }

    method ReadChargeLimit() returns (r: Io<(byte, byte)>)
      requires Valid()
      modifies io
      ensures Now() == old(Now())
      ensures r.Done? ==> r.value == ChargeOf(table, Now())
      ensures old(io.Clean()) ==> r.Done? && io.Clean()
    {
      var min :- Read(LimitMin);
      var max :- Read(LimitMax);
      return Done((min, max));
    }

    method ApplyChargeLimit(limit: ChargeLimit) returns (r: Io<()>)
      requires Valid()
      modifies io
      ensures Partly(table, old(Now()), Now(), ChargeActs(limit), r.Done?)
      ensures old(io.Clean()) ==> r.Done? && io.Clean()
    {
      ghost var before, acts := Now(), ChargeActs(limit);
      assert acts[..0] == [] && acts[..2] == acts;
      var _ :- WriteStep(LimitMin, limit.AsPercent().0, before, acts, 0);
      r := WriteStep(LimitMax, limit.AsPercent().1, before, acts, 1);
    }

    method ApplyFanMode(fan: FanIndex, mode: FanMode) returns (r: Io<()>)
      requires Valid()
      modifies io
      ensures if FanAllowed(mode) then Partly(table, old(Now()), Now(), FanActs(fan, mode), r.Done?)
              else r.Failed? && Now() == old(Now())
      ensures old(io.Clean()) ==> (FanAllowed(mode) ==> r.Done?) && io.Clean()
    {
      var policy, duty: byte := 0x00, 0;
      match mode {
      case Auto =>
      case Full => policy, duty := 0x40, 150;
      case Custom(d) =>
        if d > MAX_DUTY {
          return Failed;
        }
        policy, duty := 0x40, d;
      }
      ghost var before, acts := Now(), FanActs(fan, mode);
      assert acts[..0] == [] && acts[..2] == acts;
      var _ :- WriteStep(Policy(fan), policy, before, acts, 0);
      r := WriteStep(Duty(fan), duty, before, acts, 1);
    }

    method ReadFanRpm() returns (r: Io<(u16, u16)>)
      requires Valid()
      modifies io
      ensures Now() == old(Now())
      ensures r.Done? ==> r.value == (RpmOf(table, Now(), Cpu), RpmOf(table, Now(), Gpu))
      ensures old(io.Clean()) ==> r.Done? && io.Clean()
    {
      var cpuMsb :- Read(FanMsb(Cpu));
      var cpuLsb :- Read(FanLsb(Cpu));
      var gpuMsb :- Read(FanMsb(Gpu));
      var gpuLsb :- Read(FanLsb(Gpu));
      var cpu: u16, gpu: u16 := cpuMsb as int * 256 + cpuLsb, gpuMsb as int * 256 + gpuLsb;
      return Done((cpu, gpu));
    }

    method ReadTemperatures() returns (r: Io<(byte, byte)>)
      requires Valid()
      modifies io
      ensures Now() == old(Now())
      ensures r.Done? ==> r.value == (Now().At(table, TempCpu), Now().At(table, TempSys))
      ensures old(io.Clean()) ==> r.Done? && io.Clean()
    {
      var cpu :- Read(TempCpu);
      var sys :- Read(TempSys);
      return Done((cpu, sys));
    }

    method ReadSystemInfo() returns (r: Io<(byte, byte, byte)>)
      requires Valid()
      modifies io
      ensures Now() == old(Now())
      ensures r.Done? ==> r.value == ChipIds(table, Now())
      ensures old(io.Clean()) ==> r.Done? && io.Clean()
    {
      var id1 :- Read(ChipId1);
      var id2 :- Read(ChipId2);
      var ver :- Read(ChipVer);
      return Done((id1, id2, ver));
    }
  }

  /** `probe_chip`: the first port that answers with a known chip id. */
  method ProbeChip(io: PortIo, insecure: bool) returns (r: Io<u16>)
    requires forall p :: p in PROBE_PORTS ==> p == io.base || !io.Answers(p)
    modifies io
    ensures io.mem == old(io.mem)
    ensures r.Done? ==> r.value in PROBE_PORTS
    ensures r.Done? && !insecure ==> r.value == io.base && Recognised(io.base, io.mem)
    ensures old(io.Clean()) ==> io.Clean()
    ensures old(io.Clean()) ==>
              r == if Recognised(io.base, io.mem) then Done(io.base) else if insecure then Done(0x6E) else Failed
  {
    for i := 0 to |PROBE_PORTS|
      invariant io.mem == old(io.mem)
      invariant old(io.Clean()) ==> io.Clean()
      invariant old(io.Clean()) ==> forall j :: 0 <= j < i && PROBE_PORTS[j] == io.base ==> !KnownChip(io.mem[0x2000])
    {
      var p := PROBE_PORTS[i];
      var id := io.ReadReg(p, 0x2000);
      if id.Done? && KnownChip(id.value) {
        return Done(p);
      }
    }
    return if insecure then Done(0x6E) else Failed;
  }

  /** The HRAM heuristic: the first base whose CPU temperature cell looks like a temperature. */
  method DetectWindow(io: PortIo, port: u16) returns (r: Io<Window>)
    requires port == io.base || !io.Answers(port)
    modifies io
    ensures io.mem == old(io.mem)
    ensures r.Done? ==> port == io.base && r.value in HRAM_BASES && PlausibleTemp(io.mem[r.value + 0x70])
    ensures old(io.Clean()) ==> io.Clean()
    ensures old(io.Clean()) ==> (r == if port == io.base then FromOption(FirstWindow(io.mem, 0)) else Failed)
  {
    for i := 0 to |HRAM_BASES|
      invariant io.mem == old(io.mem)
      invariant old(io.Clean()) ==> io.Clean()
      invariant old(io.Clean()) && port == io.base ==> FirstWindow(io.mem, 0) == FirstWindow(io.mem, i)
    {
      var temp := io.ReadReg(port, HRAM_BASES[i] + 0x70);
      if temp.Done? && PlausibleTemp(temp.value) {
        return Done(HRAM_BASES[i]);
      }
    }
    return Failed;
  }

  predicate FoundAt(s: string, t: string, i: nat) { i + |t| <= |s| && s[i..i + |t|] == t }

  predicate Contains(s: string, t: string) { exists i :: 0 <= i <= |s| && FoundAt(s, t, i) }

  lemma ContainsIff(s: string, t: string)
    ensures Contains(s, t) <==> exists a, b :: s == a + t + b
  {
    if i :| 0 <= i <= |s| && FoundAt(s, t, i) {
      assert s == s[..i] + t + s[i + |t|..];
    }
    if a, b :| s == a + t + b {
      assert FoundAt(s, t, |a|);
    }
  }

  /** The text occurs in the board's name. */
  ghost predicate Names(name: string, model: string) { exists a, b :: name == a + model + b }

  /** Only boards that are called N155D, and neither N155A nor N155C, have the bypass at offset 0x4F. */
  ghost predicate CalledN155D(name: string) {
    Names(name, "N155D") && !Names(name, "N155A") && !Names(name, "N155C")
  }

  lemma TableByName(name: string, hram: Window)
    requires hram in HRAM_BASES
    ensures var t := TableOf(Layout(BoardOf(name), hram));
            && t(Bypass) == hram + (if CalledN155D(name) then 0x4F else 0x55)
            && (Distinct(t) <==> !CalledN155D(name))
  {
    ContainsIff(name, "N155A");
    ContainsIff(name, "N155C");
    ContainsIff(name, "N155D");
    DistinctIffN155A(Layout(BoardOf(name), hram));
  }

  /** The table chosen for a board's name; an unknown board gets the default one. */
  function BoardOf(name: string): Board {
    if Contains(name, "N155A") then N155A
    else if Contains(name, "N155C") then N155A
    else if Contains(name, "N155D") then N155D
    else N155A
  }

  /**
   * `EcDevice::new` up to logging and sleeping. Even in insecure mode, and whatever port calls fail,
   * it only ever succeeds on the port the chip answers at and never writes to chip memory.
   */
  method Open(io: PortIo, name: string, insecure: bool) returns (r: Io<EcDevice>)
    requires forall p :: p in PROBE_PORTS ==> p == io.base || !io.Answers(p)
    modifies io
    ensures io.mem == old(io.mem)
    ensures r.Done? ==> fresh(r.value) && r.value.io == io && r.value.Valid() && !r.value.ledCustom
    ensures r.Done? ==> r.value.layout.board == BoardOf(name) && r.value.layout.hram in HRAM_BASES
    ensures r.Done? ==> r.value.table(Bypass) == r.value.layout.hram + (if CalledN155D(name) then 0x4F else 0x55)
    ensures r.Done? ==> (Distinct(r.value.table) <==> !CalledN155D(name))
    ensures r.Done? ==> 0x10 < io.mem[r.value.layout.hram + 0x70] < 0x50
    ensures r.Done? ==> insecure || Recognised(io.base, io.mem)
    ensures old(io.Clean()) ==>
              var known := io.base in {0x2E, 0x4E, 0x6E} && io.mem[0x2000] in {0x55, 0x81, 0x85, 0x89, 0x90};
              (r.Done? <==> (known || (insecure && io.base == 0x6E)) && WarmWindow(io.mem).Some?)
    ensures old(io.Clean()) && r.Done? ==> WarmWindow(io.mem) == Some(r.value.layout.hram)
  {
    WindowIsTheFirstWarm(io.mem);
    var port: Io<u16> := Failed;
    for attempt := 0 to PROBE_ATTEMPTS
      invariant io.mem == old(io.mem)
      invariant attempt == 0 ==> port.Failed?
      invariant port.Done? ==> port.value in PROBE_PORTS
      invariant port.Done? && !insecure ==> port.value == io.base && Recognised(io.base, io.mem)
      invariant old(io.Clean()) ==> io.Clean()
      invariant old(io.Clean()) ==>
                  (attempt > 0 ==> port == if Recognised(io.base, io.mem) then Done(io.base)
                      else if insecure then Done(0x6E) else Failed)
    {
      if port.Failed? {
        port := ProbeChip(io, insecure);
      }
    }
    var p :- port;
    var hram :- DetectWindow(io, p);
    TableByName(name, hram);
    var ec := new EcDevice(io, p, Layout(BoardOf(name), hram));
    return Done(ec);
  }
}
