/**
 * The daemon in numbers: what each request and event stores, cell by cell and in order, and what the
 * getters make of which cells. Everything here is in addresses and bytes, for the N155A table in a
 * window `h` (daemon/src/ec/offsets.rs, daemon/src/ec/hw).
 */
module ChipFacts {
  import opened Bytes
  import opened EcPort
  import opened EcActs
  import opened EcDevice
  import opened EcRegs
  import opened Messages
  import opened Settings
  import opened Daemon

  /** One byte after the other stored in memory. */
  function Stored(m: Memory, cells: seq<(u16, byte)>): Memory {
    if cells == [] then m
    else Stored(m, cells[..|cells| - 1])[cells[|cells| - 1].0 := cells[|cells| - 1].1]
  }

  lemma StoredAppend(m: Memory, cells: seq<(u16, byte)>, c: (u16, byte))
    ensures Stored(m, cells + [c]) == Stored(m, cells)[c.0 := c.1]
  {
    assert (cells + [c])[..|cells|] == cells;
  }

  function Cell(t: Table, a: Act): seq<(u16, byte)> {
    match a case Write(reg, val) => [(t(reg), val)] case StoreFlag(_) => []
  }

  /** The cells a list of actions stores. */
  function Cells(t: Table, acts: seq<Act>): seq<(u16, byte)> {
    if acts == [] then [] else Cells(t, acts[..|acts| - 1]) + Cell(t, acts[|acts| - 1])
  }

  lemma {:induction false} DoStores(t: Table, e: Ec, acts: seq<Act>)
    ensures Do(t, e, acts).mem == Stored(e.mem, Cells(t, acts))
  {
    if acts != [] {
      var last := acts[|acts| - 1];
      DoStores(t, e, acts[..|acts| - 1]);
      if last.Write? {
        StoredAppend(e.mem, Cells(t, acts[..|acts| - 1]), (t(last.reg), last.val));
      } else {
        assert Cells(t, acts) == Cells(t, acts[..|acts| - 1]);
      }
    }
  }

  lemma {:induction false} CellsAppend(t: Table, a: seq<Act>, b: seq<Act>)
    ensures Cells(t, a + b) == Cells(t, a) + Cells(t, b)
  {
    if b == [] {
      assert a + b == a && Cells(t, a) + [] == Cells(t, a);
    } else {
      var front, last := b[..|b| - 1], b[|b| - 1];
      CellsAppend(t, a, front);
      assert (a + b)[..|a + b| - 1] == a + front;
      Associate(Cells(t, a), Cells(t, front), Cell(t, last));
    }
  }

  /** Writes, one cell each. */
  lemma {:induction false} ListCells(t: Table, acts: seq<Act>, cells: seq<(u16, byte)>)
    requires |acts| == |cells|
    requires forall i :: 0 <= i < |acts| ==> acts[i].Write? && (t(acts[i].reg), acts[i].val) == cells[i]
    ensures Cells(t, acts) == cells
  {
    if acts != [] {
      var n := |acts| - 1;
      ListCells(t, acts[..n], cells[..n]);
      assert cells == cells[..n] + [cells[n]];
    }
  }

  lemma FlagLast(t: Table, acts: seq<Act>, on: bool)
    ensures Cells(t, acts + [StoreFlag(on)]) == Cells(t, acts)
  {
    assert (acts + [StoreFlag(on)])[..|acts|] == acts;
  }

  function T(h: Window): Table { TableOf(Layout(N155A, h)) }

  function LevelCell(h: Window): u16 { if h == 0xC400 then 0xCF05 else 0x0F05 }

  // ---- The setters ----

  /** The cells a setter stores, and the values. */
  function SetterCells(h: Window, flag: bool, req: IpcRequest): seq<(u16, byte)> {
    match req
    case SetPowerProfile(p) => ProfileCells(h, p)
    case SetFanMode(fan, mode) => FanCells(h, fan, mode)
    case SetKeyboardBacklight(level) => LevelCells(h, level)
    case SetChargeLimit(limit) => LimitCells(h, limit)
    case SetLedMode(mode) => LedCells(h, flag, mode)
    case _ => []
  }

  function ProfileCells(h: Window, p: PowerProfile): seq<(u16, byte)> {
    [(h + 0xB1, match p case Silent => 1 case Default => 2 case Performance => 3)]
  }

  function FanCells(h: Window, fan: FanIndex, mode: FanMode): seq<(u16, byte)> {
    var (policy, duty) := if fan.Cpu? then (h + 0x4F, h + 0x4B) else (h + 0x4E, h + 0x4D);
    match mode
    case Auto => [(policy, 0x00), (duty, 0)]
    case Full => [(policy, 0x40), (duty, 150)]
    case Custom(d) => if d > 220 then [] else [(policy, 0x40), (duty, d)]
  }

  function LevelCells(h: Window, level: KeyboardLevel): seq<(u16, byte)> {
    match level
    case Off => [(LevelCell(h), 0x00)]
    case Low => [(LevelCell(h), 0x01)]
    case Medium => [(LevelCell(h), 0x02)]
    case High => [(LevelCell(h), 0x03)]
    case Custom(v) => [(h + 0xA6, 0xFF), (0x1614, 0x00), (LevelCell(h), 0xFF), (0x1806, v)]
  }

  function LimitCells(h: Window, limit: ChargeLimit): seq<(u16, byte)> {
    match limit
    case FullCapacity => [(h + 0xBC, 0), (h + 0xBB, 0)]
    case HighCapacity => [(h + 0xBC, 90), (h + 0xBB, 95)]
    case Balanced => [(h + 0xBC, 70), (h + 0xBB, 80)]
    case MaximumLifespan => [(h + 0xBC, 55), (h + 0xBB, 60)]
    case DeskMode => [(h + 0xBC, 40), (h + 0xBB, 50)]
  }

  const ENGINE_OFF: seq<(u16, byte)> := [(0x1850, 0x00), (0x1800, 0x00), (0x1801, 0xFF)]

  function LedCells(h: Window, flag: bool, mode: PowerLedMode): seq<(u16, byte)> {
    var takeOver := if flag then [] else [(h + 0x55, 0x01), (0x1610, 0x00)];
    match mode
    case Auto => [(h + 0x55, 0x00)] + ENGINE_OFF
    case Custom(b) => takeOver + ENGINE_OFF + [(0x1802, b)]
    case Animation(c) => takeOver + ENGINE_OFF + BreathCells(c)
  }

  /** Bits 5-4 of 0x1851 are the brightness, 3-2 the step down, 1-0 the step up; of 0x1852 6-4 and 2-0 the delays. */
  function BreathCells(c: BreathConfig): seq<(u16, byte)> {
    [(0x1800, 0x00), (0x1801, 0xFF),
     (0x1851, 16 * Brightness(c.maxBrightness) + 4 * Step(c.stepDown) + Step(c.stepUp)),
     (0x1852, 16 * Delay(c.delayAtMax) + Delay(c.delayAtMin)), (0x1850, 0x01)]
  }

  function Brightness(b: BreathBrightness): (n: nat)
    ensures n < 4
  {
    if b.Max25Percent? then 0 else if b.Max50Percent? then 1 else if b.Max75Percent? then 2 else 3
  }

  function Step(s: BreathStep): (n: nat)
    ensures n < 4
  {
    if s.Slow? then 0 else if s.Medium? then 1 else if s.Fast? then 2 else 3
  }

  function Delay(d: BreathDelay): (n: nat)
    ensures n < 7
  {
    if d.Ms15? then 0 else if d.Ms125? then 1 else if d.Ms250? then 2 else if d.Sec0_5? then 3
    else if d.Sec1? then 4 else if d.Sec2? then 5 else 6
  }

  lemma EngineOffCells(h: Window)
    ensures Cells(T(h), RESET_ENGINE) == ENGINE_OFF
  {
    ListCells(T(h), RESET_ENGINE, ENGINE_OFF);
  }

  lemma TakeOverCells(h: Window)
    ensures Cells(T(h), TAKE_OVER) == [(h + 0x55, 0x01), (0x1610, 0x00)]
  {
    ListCells(T(h), [Write(Bypass, 0x01), Write(A0Mux, 0x00)], [(h + 0x55, 0x01), (0x1610, 0x00)]);
    FlagLast(T(h), [Write(Bypass, 0x01), Write(A0Mux, 0x00)], true);
    assert TAKE_OVER == [Write(Bypass, 0x01), Write(A0Mux, 0x00)] + [StoreFlag(true)];
  }

  lemma BreathingCells(h: Window, c: BreathConfig)
    ensures Cells(T(h), BreathActs(c)) == BreathCells(c)
  {
    ListCells(T(h), BreathActs(c), BreathCells(c));
  }

  lemma GiveBackStores(h: Window, flag: bool)
    ensures Cells(T(h), LedActs(flag, PowerLedMode.Auto)) == [(h + 0x55, 0x00)] + ENGINE_OFF
  {
    var acts := [Write(Bypass, 0x00)] + RESET_ENGINE;
    ListCells(T(h), acts, [(h + 0x55, 0x00)] + ENGINE_OFF);
    FlagLast(T(h), acts, false);
  }

  /** Take-over, engine off, and then `tail`. */
  lemma TakenStores(h: Window, flag: bool, tail: seq<Act>)
    ensures var takeOver := if flag then [] else TAKE_OVER;
            Cells(T(h), takeOver + RESET_ENGINE + tail)
            == (if flag then [] else [(h + 0x55, 0x01), (0x1610, 0x00)]) + ENGINE_OFF + Cells(T(h), tail)
  {
    var takeOver := if flag then [] else TAKE_OVER;
    EngineOffCells(h);
    TakeOverCells(h);
    CellsAppend(T(h), takeOver, RESET_ENGINE);
    CellsAppend(T(h), takeOver + RESET_ENGINE, tail);
  }

  lemma LedStores(h: Window, flag: bool, mode: PowerLedMode)
    ensures Cells(T(h), LedActs(flag, mode)) == LedCells(h, flag, mode)
  {
    match mode {
      case Auto => GiveBackStores(h, flag);
      case Custom(b) =>
        ListCells(T(h), [Write(LedDuty, b)], [(0x1802, b)]);
        TakenStores(h, flag, [Write(LedDuty, b)]);
      case Animation(c) =>
        BreathingCells(h, c);
        TakenStores(h, flag, BreathActs(c));
    }
  }

  lemma LevelStores(h: Window, level: KeyboardLevel)
    ensures Cells(T(h), KeyboardActs(level)) == LevelCells(h, level)
  {
    ListCells(T(h), KeyboardActs(level), LevelCells(h, level));
  }

  /** Every setter stores exactly these cells, in this order, and the LED's also sets or clears the flag. */
  lemma SettersStore(h: Window, w: World, req: IpcRequest, id: u64)
    requires Served(req) && !req.Command?
    ensures var e := OnRequest(T(h), w, req, id).0.ec;
            && e.mem == Stored(w.ec.mem, SetterCells(h, w.ec.ledCustom, req))
            && e.ledCustom == if req.SetLedMode? then !req.led.Auto? else w.ec.ledCustom
  {
    RequestActsStore(h, w, req, id);
    if req.SetLedMode? {
      LedFlag(T(h), w.ec, req.led);
    } else {
      FlagUntouched(T(h), w.ec, RequestActs(w, req, id));
      OtherSetter(T(h), w, req, id);
    }
    DoStores(T(h), w.ec, RequestActs(w, req, id));
  }

  lemma OtherSetter(t: Table, w: World, req: IpcRequest, id: u64)
    requires Served(req) && !req.Command?
    ensures OnRequest(t, w, req, id).0.ec == Do(t, w.ec, RequestActs(w, req, id))
  {
  }

  lemma RequestActsStore(h: Window, w: World, req: IpcRequest, id: u64)
    requires Served(req) && !req.Command?
    ensures Cells(T(h), RequestActs(w, req, id)) == SetterCells(h, w.ec.ledCustom, req)
  {
    match req {
      case SetPowerProfile(p) => ProfileStores(h, p);
      case SetFanMode(fan, mode) =>
        if FanAllowed(mode) {
          FanStores(h, fan, mode);
        }
      case SetKeyboardBacklight(level) => LevelStores(h, level);
      case SetChargeLimit(limit) => LimitsStore(h, limit);
      case SetLedMode(mode) => LedStores(h, w.ec.ledCustom, mode);
      case _ =>
    }
  }

  lemma LedFlag(t: Table, e: Ec, mode: PowerLedMode)
    ensures Do(t, e, LedActs(e.ledCustom, mode)).ledCustom == !mode.Auto?
  {
    var acts := LedActs(e.ledCustom, mode);
    if mode.Auto? {
      LastStoreWins(t, e, acts, 4);
    } else if e.ledCustom {
      FlagUntouched(t, e, acts);
    } else {
      LastStoreWins(t, e, acts, 2);
    }
  }

  // ---- The getters ----

  /** What each getter makes of which cells. */
  lemma SpeedsRead(h: Window, w: World, id: u64)
    ensures var m := w.ec.mem;
            OnRequest(T(h), w, GetFansRPM, id)
            == (w, FanRPM(256 * m[h + 0x76] as int + m[h + 0x77], 256 * m[h + 0x79] as int + m[h + 0x7A]))
  {
  }

  lemma TemperaturesRead(h: Window, w: World, id: u64)
    ensures var m := w.ec.mem;
            OnRequest(T(h), w, GetTemperatures, id) == (w, Temp(m[h + 0x70], m[h + 0x62]))
  {
  }

  lemma LimitsRead(h: Window, w: World, id: u64)
    ensures var m := w.ec.mem;
            OnRequest(T(h), w, GetChargeLimit, id) == (w, ChargeLimits(m[h + 0xBC], m[h + 0xBB], m[h + 0x93]))
  {
  }

  lemma SystemRead(h: Window, w: World, id: u64)
    ensures var m := w.ec.mem;
            OnRequest(T(h), w, GetSystemState, id)
            == (w, SystemInfo(ChipName(m[0x2000], m[0x2001]), Hex2(m[0x2002]), h, DaemonVersion()))
  {
    ChipCells(h);
    SystemAnswer(T(h), w, id);
  }

  lemma ChipCells(h: Window)
    ensures var t := T(h); t(ChipId1) == 0x2000 && t(ChipId2) == 0x2001 && t(ChipVer) == 0x2002 && WindowOf(t) == h
  {
    WindowOfTable(Layout(N155A, h));
  }

  lemma SystemAnswer(t: Table, w: World, id: u64)
    ensures var m := w.ec.mem;
            OnRequest(t, w, GetSystemState, id)
            == (w, SystemInfo(ChipName(m[t(ChipId1)], m[t(ChipId2)]), Hex2(m[t(ChipVer)]), WindowOf(t),
                     DaemonVersion()))
  {
  }

  lemma ProfileRead(h: Window, w: World, id: u64)
    ensures var code := w.ec.mem[h + 0xB1];
            OnRequest(T(h), w, GetPowerProfile, id)
            == (w, if code == 1 then PowerLimit(Silent) else if code == 2 then PowerLimit(Default)
                   else if code == 3 then PowerLimit(Performance) else Error([]))
  {
  }

  lemma KeyboardRead(h: Window, w: World, id: u64)
    ensures var m, (w', resp) := w.ec.mem, OnRequest(T(h), w, GetKeyboardBacklight, id);
            var code := m[LevelCell(h)];
            && w' == w
            && resp == if code == 0 then KeyboardBacklight(Off) else if code == 1 then KeyboardBacklight(Low)
                       else if code == 2 then KeyboardBacklight(KeyboardLevel.Medium)
                       else if code == 3 then KeyboardBacklight(High)
                       else if code == 0xFF then KeyboardBacklight(KeyboardLevel.Custom(m[0x1806])) else Error([])
  {
  }

  // ---- Events and restorations ----

  lemma OverrideStores(h: Window, w: World, mode: PowerLedMode)
    ensures LedOverride(T(h), w, mode).ec.mem == Stored(w.ec.mem, LedCells(h, w.ec.ledCustom, mode))
  {
    LedStores(h, w.ec.ledCustom, mode);
    DoStores(T(h), w.ec, LedActs(w.ec.ledCustom, mode));
  }

  /** Before a shutdown or hibernation the LED is given back. */
  lemma PowerDownStores(h: Window, w: World)
    ensures OnEvent(T(h), w, SystemShuttingDown).ec.mem
            == Stored(w.ec.mem, [(h + 0x55, 0x00), (0x1850, 0x00), (0x1800, 0x00), (0x1801, 0xFF)])
    ensures OnEvent(T(h), w, SystemHibernating) == OnEvent(T(h), w, SystemShuttingDown)
  {
    OverrideStores(h, w, PowerLedMode.Auto);
    assert LedCells(h, w.ec.ledCustom, PowerLedMode.Auto)
        == [(h + 0x55, 0x00), (0x1850, 0x00), (0x1800, 0x00), (0x1801, 0xFF)];
  }

  /** Before sleep it is made to breathe slowly at a quarter of its brightness. */
  lemma SleepStores(h: Window, w: World)
    ensures OnEvent(T(h), w, SystemSleeping).ec.mem
            == Stored(w.ec.mem, (if w.ec.ledCustom then [] else [(h + 0x55, 0x01), (0x1610, 0x00)]) + ENGINE_OFF
                + [(0x1800, 0x00), (0x1801, 0xFF), (0x1851, 0x00), (0x1852, 0x34), (0x1850, 0x01)])
  {
    OverrideStores(h, w, Animation(SLEEP_BREATH));
    assert BreathCells(SLEEP_BREATH)
        == [(0x1800, 0x00), (0x1801, 0xFF), (0x1851, 0x00), (0x1852, 0x34), (0x1850, 0x01)];
  }

  /** The cells of a whole restoration, which ends before a fan whose duty is refused. */
  function RestoreCells(h: Window, flag: bool, s: CurrentSettings): seq<(u16, byte)> {
    LevelCells(h, s.keyboardBacklight) + LedCells(h, flag, s.ledMode) + ProfileCells(h, s.powerProfile)
    + LimitCells(h, s.chargeLimit) + FansCells(h, s)
  }

  function FansCells(h: Window, s: CurrentSettings): seq<(u16, byte)> {
    var cpu, gpu := FanCells(h, Cpu, s.fanModeCpu), FanCells(h, Gpu, s.fanModeGpu);
    if cpu == [] then [] else cpu + gpu
  }

  lemma FanStores(h: Window, fan: FanIndex, mode: FanMode)
    requires FanAllowed(mode)
    ensures Cells(T(h), FanActs(fan, mode)) == FanCells(h, fan, mode)
  {
    ListCells(T(h), FanActs(fan, mode), FanCells(h, fan, mode));
  }

  lemma FansStore(h: Window, s: CurrentSettings)
    ensures Cells(T(h), FanRestoreActs(s)) == FansCells(h, s)
  {
    if FanAllowed(s.fanModeCpu) {
      FanStores(h, Cpu, s.fanModeCpu);
      if FanAllowed(s.fanModeGpu) {
        FanStores(h, Gpu, s.fanModeGpu);
      }
      var gpu := if FanAllowed(s.fanModeGpu) then FanActs(Gpu, s.fanModeGpu) else [];
      CellsAppend(T(h), FanActs(Cpu, s.fanModeCpu), gpu);
    }
  }

  lemma FiveParts(t: Table, a: seq<Act>, b: seq<Act>, c: seq<Act>, d: seq<Act>, e: seq<Act>)
    ensures Cells(t, a + b + c + d + e) == Cells(t, a) + Cells(t, b) + Cells(t, c) + Cells(t, d) + Cells(t, e)
  {
    CellsAppend(t, a, b);
    CellsAppend(t, a + b, c);
    CellsAppend(t, a + b + c, d);
    CellsAppend(t, a + b + c + d, e);
  }

  lemma ProfileStores(h: Window, p: PowerProfile)
    ensures Cells(T(h), ProfileActs(p)) == ProfileCells(h, p)
  {
    ListCells(T(h), ProfileActs(p), ProfileCells(h, p));
  }

  lemma LimitsStore(h: Window, limit: ChargeLimit)
    ensures Cells(T(h), ChargeActs(limit)) == LimitCells(h, limit)
  {
    ListCells(T(h), ChargeActs(limit), LimitCells(h, limit));
  }

  lemma RestoreActsStore(h: Window, flag: bool, s: CurrentSettings)
    ensures Cells(T(h), RestoreActs(flag, s)) == RestoreCells(h, flag, s)
  {
    FiveParts(T(h), KeyboardActs(s.keyboardBacklight), LedActs(flag, s.ledMode), ProfileActs(s.powerProfile),
              ChargeActs(s.chargeLimit), FanRestoreActs(s));
    RestoreParts(h, flag, s);
  }

  lemma RestoreParts(h: Window, flag: bool, s: CurrentSettings)
    ensures RestoreCells(h, flag, s) ==
            Cells(T(h), KeyboardActs(s.keyboardBacklight)) + Cells(T(h), LedActs(flag, s.ledMode))
            + Cells(T(h), ProfileActs(s.powerProfile)) + Cells(T(h), ChargeActs(s.chargeLimit))
            + Cells(T(h), FanRestoreActs(s))
  {
    LevelStores(h, s.keyboardBacklight);
    LedStores(h, flag, s.ledMode);
    ProfileStores(h, s.powerProfile);
    LimitsStore(h, s.chargeLimit);
    FansStore(h, s);
  }

  lemma RestoreStores(h: Window, e: Ec, s: CurrentSettings)
    ensures Restore(T(h), e, s).mem == Stored(e.mem, RestoreCells(h, e.ledCustom, s))
  {
    RestoreActsStore(h, e.ledCustom, s);
    DoStores(T(h), e, RestoreActs(e.ledCustom, s));
  }

  /** Waking up and applying store these cells for the remembered settings, starting for the loaded ones. */
  lemma WakeStores(h: Window, w: World)
    ensures OnEvent(T(h), w, SystemWakingUp).ec.mem == Stored(w.ec.mem, RestoreCells(h, w.ec.ledCustom, w.state))
  {
    RestoreStores(h, w.ec, w.state);
  }

  lemma ApplyStores(h: Window, w: World, id: u64)
    ensures OnRequest(T(h), w, Command(ApplySettings), id).0.ec.mem
            == Stored(w.ec.mem, RestoreCells(h, w.ec.ledCustom, w.state))
  {
    ApplyRestores(T(h), w, id);
    RestoreStores(h, w.ec, w.state);
  }

  lemma ApplyRestores(t: Table, w: World, id: u64)
    ensures OnRequest(t, w, Command(ApplySettings), id).0.ec == Restore(t, w.ec, w.state)
  {
  }

  lemma StartStores(h: Window, start: Ec, s: CurrentSettings, id: u64)
    ensures Start(T(h), start, Some(s), id).ec.mem == Stored(start.mem, RestoreCells(h, false, s))
  {
    RestoreStores(h, start.(ledCustom := false), s);
  }

  /** The defaults: keyboard at medium, the LED automatic, the middle profile, no limit, both fans automatic. */
  function DefaultCells(h: Window): seq<(u16, byte)> {
    [(LevelCell(h), 0x02), (h + 0x55, 0x00), (0x1850, 0x00), (0x1800, 0x00), (0x1801, 0xFF), (h + 0xB1, 2),
     (h + 0xBC, 0), (h + 0xBB, 0), (h + 0x4F, 0x00), (h + 0x4B, 0), (h + 0x4E, 0x00), (h + 0x4D, 0)]
  }

  lemma DefaultsAre(h: Window, flag: bool, id: u64)
    ensures RestoreCells(h, flag, DefaultSettings(id)) == DefaultCells(h)
  {
    var s := DefaultSettings(id);
    assert LevelCells(h, s.keyboardBacklight) == [(LevelCell(h), 0x02)];
    assert LedCells(h, flag, s.ledMode) == [(h + 0x55, 0x00), (0x1850, 0x00), (0x1800, 0x00), (0x1801, 0xFF)];
    assert LimitCells(h, s.chargeLimit) == [(h + 0xBC, 0), (h + 0xBB, 0)];
    assert FanCells(h, Cpu, s.fanModeCpu) == [(h + 0x4F, 0x00), (h + 0x4B, 0)];
    assert FanCells(h, Gpu, s.fanModeGpu) == [(h + 0x4E, 0x00), (h + 0x4D, 0)];
  }

  /** A reset, and a start without a file, store the cells of the defaults. */
  lemma DefaultsStore(h: Window, w: World, id: u64)
    ensures OnRequest(T(h), w, Command(RestoreDefaults), id).0.ec.mem == Stored(w.ec.mem, DefaultCells(h))
    ensures Start(T(h), w.ec, None, id).ec.mem == Stored(w.ec.mem, DefaultCells(h))
  {
    RestoreStores(h, w.ec, DefaultSettings(id));
    DefaultsAre(h, w.ec.ledCustom, id);
    RestoreStores(h, w.ec.(ledCustom := false), DefaultSettings(id));
    DefaultsAre(h, false, id);
  }

  // ---- What the power-down events remember ----

  /** Level, profile and limit decoded from the cells, each only if it decodes; the other settings stay. */
  ghost predicate Remembered(h: Window, m: Memory, s: CurrentSettings, s': CurrentSettings) {
    var code, profile, min, max := m[LevelCell(h)], m[h + 0xB1], m[h + 0xBC], m[h + 0xBB];
    && s'.keyboardBacklight ==
       (if code == 0 then Off else if code == 1 then Low else if code == 2 then KeyboardLevel.Medium
        else if code == 3 then High else if code == 0xFF then KeyboardLevel.Custom(m[0x1806])
        else s.keyboardBacklight)
    && s'.powerProfile ==
       (if profile == 1 then Silent else if profile == 2 then Default else if profile == 3 then Performance
        else s.powerProfile)
    && s'.chargeLimit ==
       (if (min, max) == (0, 0) then FullCapacity else if (min, max) == (90, 95) then HighCapacity
        else if (min, max) == (70, 80) then ChargeLimit.Balanced else if (min, max) == (55, 60) then MaximumLifespan
        else if (min, max) == (40, 50) then DeskMode else s.chargeLimit)
    && s'.fanModeCpu == s.fanModeCpu && s'.fanModeGpu == s.fanModeGpu && s'.ledMode == s.ledMode
    && s'.telemetryEnabled == s.telemetryEnabled && s'.telemetryClientId == s.telemetryClientId
  }

  lemma ReadBackRemembers(h: Window, e: Ec, s: CurrentSettings)
    ensures Remembered(h, e.mem, s, ReadBack(T(h), e, s))
  {
    FromPredefinedInverts(e.mem[h + 0xBC], e.mem[h + 0xBB], FullCapacity);
  }

  /** The cells that are read back are not those of the LED. */
  lemma LedLeavesTheOthers(h: Window, e: Ec, mode: PowerLedMode)
    requires h in HRAM_BASES
    ensures var m := Do(T(h), e, LedActs(e.ledCustom, mode)).mem;
            && m[LevelCell(h)] == e.mem[LevelCell(h)] && m[0x1806] == e.mem[0x1806] && m[h + 0xB1] == e.mem[h + 0xB1]
            && m[h + 0xBC] == e.mem[h + 0xBC] && m[h + 0xBB] == e.mem[h + 0xBB]
  {
    DistinctIffN155A(Layout(N155A, h));
    ReadCells(h);
    LedLeaves(T(h), e, mode, Kbd);
    LedLeaves(T(h), e, mode, KbdVal);
    LedLeaves(T(h), e, mode, Power);
    LedLeaves(T(h), e, mode, LimitMin);
    LedLeaves(T(h), e, mode, LimitMax);
  }

  lemma ReadCells(h: Window)
    ensures var t := T(h);
            && t(Kbd) == LevelCell(h) && t(KbdVal) == 0x1806 && t(Power) == h + 0xB1 && t(LimitMin) == h + 0xBC
            && t(LimitMax) == h + 0xBB
  {
  }

  lemma LedLeaves(t: Table, e: Ec, mode: PowerLedMode, reg: Reg)
    requires Distinct(t) && Owner(reg) != Led
    ensures Do(t, e, LedActs(e.ledCustom, mode)).mem[t(reg)] == e.mem[t(reg)]
  {
    LedStaysWithin(e.ledCustom, mode);
    Untouched(t, e, LedActs(e.ledCustom, mode), reg);
  }

  /** The three power-down events remember what the cells say, and save it, whatever the cells hold. */
  lemma PowerDownRemembers(h: Window, w: World, ev: InternalEvent)
    requires h in HRAM_BASES && (ev.SystemShuttingDown? || ev.SystemHibernating? || ev.SystemSleeping?)
    ensures var w' := OnEvent(T(h), w, ev);
            Remembered(h, w.ec.mem, w.state, w'.state) && w'.disk == Some(w'.state) && w'.worker == w.worker
  {
    var mode := if ev.SystemSleeping? then Animation(SLEEP_BREATH) else PowerLedMode.Auto;
    LedLeavesTheOthers(h, w.ec, mode);
    ReadBackRemembers(h, Do(T(h), w.ec, LedActs(w.ec.ledCustom, mode)), w.state);
  }
}
