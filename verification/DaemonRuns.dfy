/** Whole serial runs of the daemon without I/O errors, including restarts over arbitrary registers. */
module DaemonRuns {
  import opened Bytes
  import opened EcPort
  import opened EcActs
  import opened EcDevice
  import opened EcRegs
  import opened Messages
  import opened Settings
  import opened Daemon
  import opened Coherence

  /** What can happen to the daemon. */
  datatype Input =
    | Request(req: IpcRequest, id: u64)
    | Event(event: InternalEvent)
    | PeerReset                       // a connection reset: the settings are saved
    | Restart(mem: Memory, id: u64)   // a new process finds these registers

  predicate Answerable(x: Input) { x.Request? ==> Served(x.req) }

  function Serve(t: Table, w: World, x: Input): World
    requires Answerable(x)
  {
    match x
    case Request(req, id) => OnRequest(t, w, req, id).0
    case Event(ev) => OnEvent(t, w, ev)
    case PeerReset => w.(disk := Some(w.state))
    case Restart(mem, id) => Start(t, Ec(mem, false), w.disk, id)
  }

  ghost predicate AllServed(xs: seq<Input>) {
    forall i :: 0 <= i < |xs| ==> Answerable(xs[i])
  }

  function Run(t: Table, w: World, xs: seq<Input>): World
    requires AllServed(xs)
  {
    if xs == [] then w else Serve(t, Run(t, w, xs[..|xs| - 1]), xs[|xs| - 1])
  }

  ghost predicate DiskAllowed(disk: Option<CurrentSettings>) {
    disk.Some? ==> FansAllowed(disk.value)
  }

  /** What holds after every input: coherence, a sound flag, and no stored duty over the limit. */
  ghost predicate Inv(t: Table, w: World) {
    && Coherent(t, w.ec, w.state)
    && FlagSound(t, w.ec)
    && FansAllowed(w.state)
    && DiskAllowed(w.disk)
  }

  // ---- One input ----

  lemma SetterKeepsCoherence(t: Table, e: Ec, s: CurrentSettings, s': CurrentSettings, acts: seq<Act>, f: Feature)
    requires Distinct(t) && Coherent(t, e, s) && Within(acts, f) && SameBut(s, s', f)
    requires f != Led ==> Shows(t, Do(t, e, acts), s', f)
    ensures Coherent(t, Do(t, e, acts), s')
  {
    forall g | g != Led
      ensures Shows(t, Do(t, e, acts), s', g)
    {
      if g != f {
        OtherRegsStay(t, e, acts, f, g);
        OtherSettingsShow(t, e, s, s', f, g);
        SameRegsShowTheSame(t, e, Do(t, e, acts), s', g);
        assert Shows(t, e, s, g);
      }
    }
  }

  /** In a coherent state `read_and_save_state` stores what is remembered already. */
  lemma ReadBackIsFixpoint(t: Table, e: Ec, s: CurrentSettings)
    requires Coherent(t, e, s)
    ensures ReadBack(t, e, s) == s
    ensures KeyboardOf(t, e) == Done(s.keyboardBacklight) && ProfileOf(t, e) == Done(s.powerProfile)
    ensures ChargeOf(t, e) == s.chargeLimit.AsPercent()
  {
    assert Shows(t, e, s, Keyboard) && Shows(t, e, s, Profile) && Shows(t, e, s, Charge);
    FromPredefinedInverts(ChargeOf(t, e).0, ChargeOf(t, e).1, s.chargeLimit);
  }

  /** Applying an LED mode, whichever mode is then remembered. */
  lemma LedStep(t: Table, w: World, mode: PowerLedMode, remembered: PowerLedMode)
    requires Distinct(t) && Inv(t, w)
    ensures var e' := Do(t, w.ec, LedActs(w.ec.ledCustom, mode));
            && Inv(t, w.(ec := e', state := w.state.(ledMode := remembered)))
            && LedShows(t, e', mode) && (e'.ledCustom <==> !mode.Auto?)
  {
    OperationsStayWithin(Off, w.ec.ledCustom, mode, Silent, Balanced, Cpu, FanMode.Auto);
    SetterKeepsCoherence(t, w.ec, w.state, w.state.(ledMode := remembered), LedActs(w.ec.ledCustom, mode), Led);
    LedAppliesIff(t, w.ec, mode);
  }

  lemma LedOverrideKeepsInv(t: Table, w: World, mode: PowerLedMode)
    requires Distinct(t) && Inv(t, w)
    ensures var w' := LedOverride(t, w, mode);
            Inv(t, w') && LedShows(t, w'.ec, mode) && w'.state == w.state && w'.disk == Some(w.state)
            && (w'.ec.ledCustom <==> !mode.Auto?)
  {
    LedStep(t, w, mode, w.state.ledMode);
    ReadBackIsFixpoint(t, Do(t, w.ec, LedActs(w.ec.ledCustom, mode)), w.state);
  }

  lemma BatteryLedsKeepInv(t: Table, w: World, orange: bool, white: bool)
    requires Distinct(t) && Inv(t, w)
    ensures var e' := BatteryLeds(t, w.ec, orange, white);
            && Inv(t, w.(ec := e')) && e'.ledCustom == w.ec.ledCustom
            && forall f :: f != Other ==> SameRegs(t, w.ec, e', f)
  {
    var acts := [Write(PortA, BatteryByte(w.ec.At(t, PortA), orange, white))];
    assert acts[..0] == [];
    assert Do(t, w.ec, acts) == BatteryLeds(t, w.ec, orange, white);
    forall f | f != Other
      ensures SameRegs(t, w.ec, BatteryLeds(t, w.ec, orange, white), f)
    {
      OtherRegsStay(t, w.ec, acts, Other, f);
    }
    SetterKeepsCoherence(t, w.ec, w.state, w.state, acts, Other);
    FlagSoundStays(t, w.ec, acts, Other);
  }

  /** A setter other than the LED's: it re-establishes its own setting and leaves the LED alone. */
  ghost predicate PlainlySet(t: Table, w: World, w': World) {
    && Inv(t, w') && w'.ec.ledCustom == w.ec.ledCustom && w'.state.ledMode == w.state.ledMode
    && SameRegs(t, w.ec, w'.ec, Led)
  }

  lemma PlainSetter(t: Table, w: World, acts: seq<Act>, s': CurrentSettings, f: Feature)
    requires Distinct(t) && Inv(t, w) && Within(acts, f) && f != Led && FansAllowed(s') && SameBut(w.state, s', f)
    requires forall i :: 0 <= i < |acts| ==> acts[i].Write?
    requires Shows(t, Do(t, w.ec, acts), s', f)
    ensures PlainlySet(t, w, w.(ec := Do(t, w.ec, acts), state := s'))
  {
    SetterKeepsCoherence(t, w.ec, w.state, s', acts, f);
    FlagSoundStays(t, w.ec, acts, f);
    OtherRegsStay(t, w.ec, acts, f, Led);
  }

  lemma SetProfileKeepsInv(t: Table, w: World, p: PowerProfile)
    requires Distinct(t) && Inv(t, w)
    ensures PlainlySet(t, w, Set(t, w, ProfileActs(p), w.state.(powerProfile := p)).0)
  {
    ProfileEstablished(t, w.ec, p);
    PlainSetter(t, w, ProfileActs(p), w.state.(powerProfile := p), Profile);
  }

  lemma SetKeyboardKeepsInv(t: Table, w: World, k: KeyboardLevel)
    requires Distinct(t) && Inv(t, w)
    ensures PlainlySet(t, w, Set(t, w, KeyboardActs(k), w.state.(keyboardBacklight := k)).0)
  {
    KeyboardEstablished(t, w.ec, k);
    PlainSetter(t, w, KeyboardActs(k), w.state.(keyboardBacklight := k), Keyboard);
  }

  lemma SetChargeKeepsInv(t: Table, w: World, c: ChargeLimit)
    requires Distinct(t) && Inv(t, w)
    ensures PlainlySet(t, w, Set(t, w, ChargeActs(c), w.state.(chargeLimit := c)).0)
  {
    ChargeEstablished(t, w.ec, c);
    PlainSetter(t, w, ChargeActs(c), w.state.(chargeLimit := c), Charge);
  }

  lemma SetFanKeepsInv(t: Table, w: World, fan: FanIndex, mode: FanMode)
    requires Distinct(t) && Inv(t, w) && FanAllowed(mode)
    ensures PlainlySet(t, w, Set(t, w, FanActs(fan, mode), WithFan(w.state, fan, mode)).0)
  {
    FanEstablished(t, w.ec, fan, mode);
    PlainSetter(t, w, FanActs(fan, mode), WithFan(w.state, fan, mode), Fan(fan));
  }

  lemma NothingSet(t: Table, w: World)
    requires Inv(t, w)
    ensures PlainlySet(t, w, w)
  {
  }

  lemma SetLedKeepsInv(t: Table, w: World, mode: PowerLedMode)
    requires Distinct(t) && Inv(t, w)
    ensures var w' := Set(t, w, LedActs(w.ec.ledCustom, mode), w.state.(ledMode := mode)).0;
            Inv(t, w') && LedShows(t, w'.ec, mode)
  {
    LedStep(t, w, mode, mode);
  }

  /** What the LED registers encode after `x`, if they encoded `shown` before. */
  function LedAfter(shown: PowerLedMode, w: World, x: Input): PowerLedMode
    requires Answerable(x)
  {
    match x
    case Request(SetLedMode(m), _) => m
    case Request(Command(RestoreDefaults), _) => PowerLedMode.Auto
    case Request(Command(ApplySettings), _) => w.state.ledMode
    case Event(SystemShuttingDown) => PowerLedMode.Auto
    case Event(SystemHibernating) => PowerLedMode.Auto
    case Event(SystemSleeping) => Animation(SLEEP_BREATH)
    case Event(SystemWakingUp) => w.state.ledMode
    case Restart(_, _) => if w.disk.Some? then w.disk.value.ledMode else PowerLedMode.Auto
    case _ => shown
  }

  lemma TelemetryFieldsDoNotShow(t: Table, e: Ec, s: CurrentSettings, on: bool)
    requires Coherent(t, e, s)
    ensures Coherent(t, e, s.(telemetryEnabled := on))
  {
    forall f | f != Led
      ensures Shows(t, e, s.(telemetryEnabled := on), f)
    {
      assert Shows(t, e, s, f);
    }
  }

  lemma RequestKeepsInv(t: Table, w: World, req: IpcRequest, id: u64, shown: PowerLedMode)
    requires Distinct(t) && Inv(t, w) && LedShows(t, w.ec, shown) && Served(req)
    ensures KeptBy(t, w, req, id, shown)
  {
    match req {
      case SetPowerProfile(_) | SetFanMode(_, _) | SetKeyboardBacklight(_) | SetChargeLimit(_) =>
        PlainRequest(t, w, req, id);
        SameLedShown(t, w.ec, OnRequest(t, w, req, id).0.ec, shown);
      case SetLedMode(m) => SetLedKeepsInv(t, w, m);
      case Command(c) => CommandKeepsInv(t, w, c, id, shown);
      case _ =>
    }
  }

  lemma PlainRequest(t: Table, w: World, req: IpcRequest, id: u64)
    requires Distinct(t) && Inv(t, w)
    requires req.SetPowerProfile? || req.SetFanMode? || req.SetKeyboardBacklight? || req.SetChargeLimit?
    ensures PlainlySet(t, w, OnRequest(t, w, req, id).0)
  {
    match req {
      case SetPowerProfile(p) => SetProfileKeepsInv(t, w, p);
      case SetFanMode(fan, mode) =>
        if FanAllowed(mode) {
          SetFanKeepsInv(t, w, fan, mode);
        } else {
          NothingSet(t, w);
        }
      case SetKeyboardBacklight(k) => SetKeyboardKeepsInv(t, w, k);
      case SetChargeLimit(c) => SetChargeKeepsInv(t, w, c);
    }
  }

  /** A world whose registers were just restored from what it remembers. */
  lemma JustRestored(t: Table, e: Ec, w: World)
    requires Distinct(t) && FlagSound(t, e) && FansAllowed(w.state) && DiskAllowed(w.disk)
    requires w.ec == Restore(t, e, w.state)
    ensures Inv(t, w) && LedShows(t, w.ec, w.state.ledMode)
  {
    RestoreEstablishes(t, e, w.state);
  }

  lemma WakeKeepsInv(t: Table, w: World)
    requires Distinct(t) && Inv(t, w)
    ensures var w' := OnEvent(t, w, SystemWakingUp); Inv(t, w') && LedShows(t, w'.ec, w.state.ledMode)
  {
    JustRestored(t, w.ec, OnEvent(t, w, SystemWakingUp));
  }

  /** A request keeps the invariant and moves what the LED shows as `LedAfter` says. */
  ghost predicate KeptBy(t: Table, w: World, req: IpcRequest, id: u64, shown: PowerLedMode)
    requires Served(req)
  {
    var w' := OnRequest(t, w, req, id).0;
    Inv(t, w') && LedShows(t, w'.ec, LedAfter(shown, w, Request(req, id)))
  }

  lemma DefaultsKeepInv(t: Table, w: World, id: u64, shown: PowerLedMode)
    requires Distinct(t) && Inv(t, w)
    ensures KeptBy(t, w, Command(RestoreDefaults), id, shown)
  {
    JustRestored(t, w.ec, OnRequest(t, w, Command(RestoreDefaults), id).0);
  }

  lemma ApplyKeepsInv(t: Table, w: World, id: u64, shown: PowerLedMode)
    requires Distinct(t) && Inv(t, w)
    ensures KeptBy(t, w, Command(ApplySettings), id, shown)
  {
    JustRestored(t, w.ec, OnRequest(t, w, Command(ApplySettings), id).0);
  }

  lemma OtherCommandKeepsInv(t: Table, w: World, c: DaemonCommand, id: u64, shown: PowerLedMode)
    requires Inv(t, w) && LedShows(t, w.ec, shown) && (c.ActivateTelemetry? || c.GetSettings? || c.GetTelemetryId?)
    ensures KeptBy(t, w, Command(c), id, shown)
  {
    if c.ActivateTelemetry? {
      TelemetryFieldsDoNotShow(t, w.ec, w.state, c.on);
    }
  }

  lemma CommandKeepsInv(t: Table, w: World, c: DaemonCommand, id: u64, shown: PowerLedMode)
    requires Distinct(t) && Inv(t, w) && LedShows(t, w.ec, shown) && Served(Command(c))
    ensures KeptBy(t, w, Command(c), id, shown)
  {
    match c {
      case RestoreDefaults => DefaultsKeepInv(t, w, id, shown);
      case ApplySettings => ApplyKeepsInv(t, w, id, shown);
      case _ => OtherCommandKeepsInv(t, w, c, id, shown);
    }
  }

  lemma ChargerKeepsInv(t: Table, w: World, ev: InternalEvent, shown: PowerLedMode)
    requires Distinct(t) && Inv(t, w) && LedShows(t, w.ec, shown) && (ev.ChargerConnected? || ev.ChargerDisconnected?)
    ensures var w' := OnEvent(t, w, ev); Inv(t, w') && LedShows(t, w'.ec, shown)
  {
    var orange, white := ChargerShows(t, w, ev);
    BatteryLedsKeepInv(t, w, orange, white);
    SameLedShown(t, w.ec, BatteryLeds(t, w.ec, orange, white), shown);
  }

  lemma ChargerShows(t: Table, w: World, ev: InternalEvent) returns (orange: bool, white: bool)
    requires ev.ChargerConnected? || ev.ChargerDisconnected?
    ensures OnEvent(t, w, ev) == w.(ec := BatteryLeds(t, w.ec, orange, white))
  {
    var full := w.ec.At(t, Rsoc) >= ChargeOf(t, w.ec).1;
    orange, white := ev.ChargerConnected? && !full, ev.ChargerConnected? && full;
  }

  lemma OverrideEventKeepsInv(t: Table, w: World, ev: InternalEvent)
    requires Distinct(t) && Inv(t, w) && (ev.SystemShuttingDown? || ev.SystemHibernating? || ev.SystemSleeping?)
    ensures var w' := OnEvent(t, w, ev);
            Inv(t, w') && LedShows(t, w'.ec, if ev.SystemSleeping? then Animation(SLEEP_BREATH) else PowerLedMode.Auto)
  {
    LedOverrideKeepsInv(t, w, if ev.SystemSleeping? then Animation(SLEEP_BREATH) else PowerLedMode.Auto);
  }

  lemma EventKeepsInv(t: Table, w: World, ev: InternalEvent, shown: PowerLedMode)
    requires Distinct(t) && Inv(t, w) && LedShows(t, w.ec, shown)
    ensures var w' := OnEvent(t, w, ev); Inv(t, w') && LedShows(t, w'.ec, LedAfter(shown, w, Event(ev)))
  {
    match ev {
      case SystemShuttingDown | SystemHibernating | SystemSleeping => OverrideEventKeepsInv(t, w, ev);
      case SystemWakingUp => WakeKeepsInv(t, w);
      case ChargerConnected | ChargerDisconnected => ChargerKeepsInv(t, w, ev, shown);
    }
  }

  lemma ServeKeepsInv(t: Table, w: World, x: Input, shown: PowerLedMode)
    requires Distinct(t) && Inv(t, w) && LedShows(t, w.ec, shown) && Answerable(x)
    ensures Inv(t, Serve(t, w, x)) && LedShows(t, Serve(t, w, x).ec, LedAfter(shown, w, x))
  {
    match x {
      case Request(req, id) => RequestKeepsInv(t, w, req, id, shown);
      case Event(ev) => EventKeepsInv(t, w, ev, shown);
      case PeerReset =>
      case Restart(mem, id) => JustRestored(t, Ec(mem, false), Serve(t, w, x));
    }
  }

  // ---- Runs ----

  /** What the LED registers encode at the end of a run: the last override or the last mode applied. */
  function LedShown(t: Table, w: World, xs: seq<Input>): PowerLedMode
    requires AllServed(xs)
  {
    if xs == [] then w.state.ledMode
    else var rest := xs[..|xs| - 1]; LedAfter(LedShown(t, w, rest), Run(t, w, rest), xs[|xs| - 1])
  }

  /**
   * Main result. Start the daemon over any registers and any file an earlier run may have left. After
   * any requests, events, saves and restarts, keyboard, power, charge and fan registers encode the
   * remembered settings, the LED registers encode the mode applied last, the flag is sound, and no
   * stored fan duty exceeds 220.
   */
  lemma {:induction false} CoherenceOverRuns(t: Table, start: Ec, disk: Option<CurrentSettings>, id: u64,
          xs: seq<Input>)
    requires Distinct(t) && DiskAllowed(disk) && AllServed(xs)
    ensures var w0 := Start(t, start, disk, id);
            Inv(t, Run(t, w0, xs)) && LedShows(t, Run(t, w0, xs).ec, LedShown(t, w0, xs))
  {
    var w0 := Start(t, start, disk, id);
    if xs == [] {
      RestoreEstablishes(t, start.(ledCustom := false), w0.state);
    } else {
      var rest := xs[..|xs| - 1];
      CoherenceOverRuns(t, start, disk, id, rest);
      ServeKeepsInv(t, Run(t, w0, rest), xs[|xs| - 1], LedShown(t, w0, rest));
    }
  }

  /** The same for the boards and windows the daemon knows: every N155A. */
  lemma {:induction false} CoherenceOnN155A(l: Layout, start: Ec, disk: Option<CurrentSettings>, id: u64,
          xs: seq<Input>)
    requires l.board.N155A? && l.hram in HRAM_BASES && DiskAllowed(disk) && AllServed(xs)
    ensures var t := TableOf(l);
            var w0 := Start(t, start, disk, id);
            var w := Run(t, w0, xs);
            && Inv(t, w) && LedShows(t, w.ec, LedShown(t, w0, xs))
            && w.ec.At(t, Duty(Cpu)) <= MAX_DUTY && w.ec.At(t, Duty(Gpu)) <= MAX_DUTY
  {
    DistinctIffN155A(l);
    CoherenceOverRuns(TableOf(l), start, disk, id, xs);
    DutiesAreBounded(TableOf(l), Run(TableOf(l), Start(TableOf(l), start, disk, id), xs));
  }

  lemma DutiesAreBounded(t: Table, w: World)
    requires Inv(t, w)
    ensures w.ec.At(t, Duty(Cpu)) <= MAX_DUTY && w.ec.At(t, Duty(Gpu)) <= MAX_DUTY
  {
    assert Shows(t, w.ec, w.state, Fan(Cpu)) && Shows(t, w.ec, w.state, Fan(Gpu));
  }

  lemma RunTwo(t: Table, w: World, x: Input, y: Input)
    requires AllServed([x, y])
    ensures Answerable(x) && Answerable(y)
    ensures Run(t, w, [x, y]) == Serve(t, Serve(t, w, x), y)
  {
    assert [x, y][0] == x && [x, y][1] == y;
    assert [x, y][..1] == [x] && [x][..0] == [];
    assert Run(t, w, [x]) == Serve(t, Run(t, w, [x][..0]), [x][0]);
  }

  /** Whatever shares the bypass address, taking over the LED leaves 1 there. */
  lemma TakeOverWritesBypass(t: Table, e: Ec, brightness: byte)
    requires t(Bypass) !in {t(A0Mux), t(BreathEn), t(Prescaler), t(Cycle), t(LedDuty)}
    ensures Do(t, e, LedActs(false, PowerLedMode.Custom(brightness))).mem[t(Bypass)] == 1
  {
    var first, rest := [Write(Bypass, 1)], [Write(A0Mux, 0), StoreFlag(true)] + RESET_ENGINE
        + [Write(LedDuty, brightness)];
    assert LedActs(false, PowerLedMode.Custom(brightness)) == first + rest;
    DoAppend(t, e, first, rest);
    assert first[..0] == [];
    OutsideMemory(t, Do(t, e, first), rest, t(Bypass));
  }

  /** Set the CPU fan by hand, then let the LED be taken over. */
  function FanThenLed(mode: FanMode, brightness: byte): seq<Input> {
    [Request(SetFanMode(Cpu, mode), 0), Request(SetLedMode(PowerLedMode.Custom(brightness)), 0)]
  }

  lemma SharedBypassLosesTheFanPolicy(t: Table, w: World, mode: FanMode, brightness: byte)
    requires t(Bypass) == t(Policy(Cpu)) && t(Bypass) !in {t(A0Mux), t(BreathEn), t(Prescaler), t(Cycle), t(LedDuty)}
    requires FanAllowed(mode) && !w.ec.ledCustom
    ensures var w' := Run(t, w, FanThenLed(mode, brightness));
            w'.ec.At(t, Policy(Cpu)) == 1 && !Coherent(t, w'.ec, w'.state)
  {
    var x, y := Request(SetFanMode(Cpu, mode), 0), Request(SetLedMode(PowerLedMode.Custom(brightness)), 0);
    RunTwo(t, w, x, y);
    FlagUntouched(t, w.ec, FanActs(Cpu, mode));
    var w1 := Serve(t, w, x);
    TakeOverWritesBypass(t, w1.ec, brightness);
    FanPolicyLost(t, Serve(t, w1, y).ec, Serve(t, w1, y).state);
  }

  /**
   * Coherence is not promised for the N155D table: there the bypass register is the CPU fan's policy
   * register, and taking over the LED ends manual fan control while the settings still claim it.
   */
  lemma {:induction false} N155DLosesTheFanPolicy(l: Layout, w: World, mode: FanMode, brightness: byte)
    requires l.board.N155D? && l.hram in HRAM_BASES && FanAllowed(mode) && !w.ec.ledCustom
    ensures var w' := Run(TableOf(l), w, FanThenLed(mode, brightness)); !Coherent(TableOf(l), w'.ec, w'.state)
  {
    N155DSharesTheBypass(l);
    SharedBypassLosesTheFanPolicy(TableOf(l), w, mode, brightness);
  }

  /** A table keeps its promises if every run from every start with an admissible file ends coherent. */
  ghost predicate AlwaysCoherent(t: Table) {
    forall start, disk, id, xs :: DiskAllowed(disk) && AllServed(xs) ==> EndsCoherent(t, start, disk, id, xs)
  }

  ghost predicate EndsCoherent(t: Table, start: Ec, disk: Option<CurrentSettings>, id: u64, xs: seq<Input>)
    requires AllServed(xs)
  {
    var w := Run(t, Start(t, start, disk, id), xs);
    Coherent(t, w.ec, w.state)
  }

  /** A start without a file applies the automatic LED mode, so its flag ends clear on every table. */
  lemma StartWithoutFile(t: Table, start: Ec, id: u64)
    ensures !Start(t, start, None, id).ec.ledCustom
  {
    var s, e := DefaultSettings(id), start.(ledCustom := false);
    var before, led := KeyboardActs(s.keyboardBacklight), LedActs(false, PowerLedMode.Auto);
    var rest := ProfileActs(s.powerProfile) + ChargeActs(s.chargeLimit) + FanRestoreActs(s);
    assert RestoreActs(false, s) == before + led + rest;
    DoAppend(t, e, before + led, rest);
    DoAppend(t, e, before, led);
    LastStoreWins(t, Do(t, e, before), led, 4);
    FlagUntouched(t, Do(t, e, before + led), rest);
  }

  /** Exactly the N155A table keeps every run coherent, in every window the daemon looks for. */
  lemma {:induction false} CoherentIffN155A(l: Layout)
    requires l.hram in HRAM_BASES
    ensures AlwaysCoherent(TableOf(l)) <==> l.board.N155A?
  {
    var t := TableOf(l);
    if l.board.N155A? {
      forall start, disk, id, xs | DiskAllowed(disk) && AllServed(xs)
        ensures EndsCoherent(t, start, disk, id, xs)
      {
        CoherenceOnN155A(l, start, disk, id, xs);
      }
    } else {
      var start: Ec := Ec(seq(0x1_0000, _ => 0), false);
      StartWithoutFile(t, start, 0);
      N155DLosesTheFanPolicy(l, Start(t, start, None, 0), FanMode.Auto, 0);
      assert !EndsCoherent(t, start, None, 0, FanThenLed(FanMode.Auto, 0));
    }
  }

  lemma N155DSharesTheBypass(l: Layout)
    requires l.board.N155D? && l.hram in HRAM_BASES
    ensures var t := TableOf(l);
            t(Bypass) == t(Policy(Cpu)) && t(Bypass) !in {t(A0Mux), t(BreathEn), t(Prescaler), t(Cycle), t(LedDuty)}
  {
  }

  lemma FanPolicyLost(t: Table, e: Ec, s: CurrentSettings)
    requires e.At(t, Policy(Cpu)) == 1
    ensures !Coherent(t, e, s)
  {
    assert !Shows(t, e, s, Fan(Cpu));
  }

  /** On coherent registers, power and charger events change no setting and save exactly the settings. */
  lemma EventsKeepSettings(t: Table, w: World, ev: InternalEvent)
    requires Distinct(t) && Inv(t, w)
    ensures OnEvent(t, w, ev).state == w.state
    ensures ev.SystemShuttingDown? || ev.SystemHibernating? || ev.SystemSleeping?
        ==> OnEvent(t, w, ev).disk == Some(w.state)
  {
    LedOverrideKeepsInv(t, w, PowerLedMode.Auto);
    LedOverrideKeepsInv(t, w, Animation(SLEEP_BREATH));
  }

  /** Getters answer from the registers, and that is what is remembered. */
  lemma GettersReportTheSettings(t: Table, w: World)
    requires Inv(t, w)
    ensures OnRequest(t, w, GetKeyboardBacklight, 0) == (w, KeyboardBacklight(w.state.keyboardBacklight))
    ensures OnRequest(t, w, GetPowerProfile, 0) == (w, PowerLimit(w.state.powerProfile))
    ensures var (min, max) := w.state.chargeLimit.AsPercent();
            OnRequest(t, w, GetChargeLimit, 0) == (w, ChargeLimits(min, max, w.ec.At(t, Rsoc)))
  {
    ReadBackIsFixpoint(t, w.ec, w.state);
  }

  // ---- Sleep, hibernation, reboot ----

  /** Inputs that neither apply an LED mode nor set the LED flag. */
  predicate LedNeutral(x: Input) {
    match x
    case Request(Command(c), _) => !c.RestoreDefaults? && !c.ApplySettings?
    case Request(req, _) => !req.SetLedMode?
    case Event(ev) => !ev.SystemSleeping? && !ev.SystemWakingUp?
    case PeerReset => true
    case Restart(_, _) => false
  }

  lemma NeutralRequest(t: Table, w: World, req: IpcRequest, id: u64)
    requires Served(req) && LedNeutral(Request(req, id)) && !w.ec.ledCustom && FansAllowed(w.state)
    ensures var w' := OnRequest(t, w, req, id).0; !w'.ec.ledCustom && FansAllowed(w'.state)
  {
    match req {
      case SetPowerProfile(p) => FlagUntouched(t, w.ec, ProfileActs(p));
      case SetFanMode(fan, mode) => FlagUntouched(t, w.ec, FanActs(fan, mode));
      case SetKeyboardBacklight(k) => FlagUntouched(t, w.ec, KeyboardActs(k));
      case SetChargeLimit(c) => FlagUntouched(t, w.ec, ChargeActs(c));
      case _ =>
    }
  }

  lemma NeutralEvent(t: Table, w: World, ev: InternalEvent)
    requires Distinct(t) && LedNeutral(Event(ev)) && !w.ec.ledCustom && FansAllowed(w.state)
    ensures var w' := OnEvent(t, w, ev); !w'.ec.ledCustom && FansAllowed(w'.state)
  {
    if ev.SystemShuttingDown? || ev.SystemHibernating? {
      AutoEstablished(t, w.ec, w.ec.ledCustom);
    }
  }

  lemma NeutralKeepsFlagClear(t: Table, w: World, x: Input)
    requires Distinct(t) && Answerable(x) && LedNeutral(x) && !w.ec.ledCustom && FansAllowed(w.state)
    ensures var w' := Serve(t, w, x); !w'.ec.ledCustom && FansAllowed(w'.state)
  {
    match x {
      case Request(req, id) => NeutralRequest(t, w, req, id);
      case Event(ev) => NeutralEvent(t, w, ev);
      case PeerReset =>
    }
  }

  /** While the machine is down, inputs may still arrive and the chip may lose its registers at any time. */
  datatype Happening = Arrives(x: Input) | Loses(mem: Memory)

  predicate Harmless(h: Happening) { h.Arrives? ==> Answerable(h.x) && LedNeutral(h.x) }

  ghost predicate AllHarmless(hs: seq<Happening>) { forall i :: 0 <= i < |hs| ==> Harmless(hs[i]) }

  function Meanwhile(t: Table, w: World, hs: seq<Happening>): World
    requires AllHarmless(hs)
  {
    if hs == [] then w
    else
      var before := Meanwhile(t, w, hs[..|hs| - 1]);
      match hs[|hs| - 1]
      case Arrives(x) => Serve(t, before, x)
      case Loses(mem) => before.(ec := before.ec.(mem := mem))
  }

  lemma {:induction false} MeanwhileFlagStaysClear(t: Table, w: World, hs: seq<Happening>)
    requires Distinct(t) && AllHarmless(hs) && !w.ec.ledCustom && FansAllowed(w.state)
    ensures var w' := Meanwhile(t, w, hs); !w'.ec.ledCustom && FansAllowed(w'.state)
  {
    if hs != [] {
      MeanwhileFlagStaysClear(t, w, hs[..|hs| - 1]);
      if hs[|hs| - 1].Arrives? {
        NeutralKeepsFlagClear(t, Meanwhile(t, w, hs[..|hs| - 1]), hs[|hs| - 1].x);
      }
    }
  }

  /** Waking up over lost registers, in any earlier state. */
  lemma {:induction false} WakeOverLostRegisters(t: Table, w: World, mem: Memory)
    requires Distinct(t) && FansAllowed(w.state)
    ensures var e := w.ec.(mem := mem);
            var on := OnEvent(t, w.(ec := e), SystemWakingUp);
            && on.state == w.state && Coherent(t, on.ec, w.state)
            && (LedShows(t, on.ec, w.state.ledMode) <==> w.state.ledMode.Auto? || FlagSound(t, e))
  {
    RestoreEstablishes(t, w.ec.(mem := mem), w.state);
  }

  lemma HibernatingClearsTheFlag(t: Table, w: World)
    requires Distinct(t)
    ensures var off := OnEvent(t, w, SystemHibernating);
        !off.ec.ledCustom && (FansAllowed(w.state) ==> FansAllowed(off.state))
  {
    AutoEstablished(t, w.ec, w.ec.ledCustom);
  }

  /**
   * Hibernate, let the chip lose its registers as often as it likes, before, between and after other
   * inputs, wake up: all registers encode the remembered settings again, LED included, because
   * hibernating cleared the flag.
   */
  lemma {:induction false} HibernateThenWake(t: Table, w: World, hs: seq<Happening>)
    requires Distinct(t) && FansAllowed(w.state) && AllHarmless(hs)
    ensures var off := Meanwhile(t, OnEvent(t, w, SystemHibernating), hs);
            var on := OnEvent(t, off, SystemWakingUp);
            on.state == off.state && Coherent(t, on.ec, on.state) && LedShows(t, on.ec, on.state.ledMode)
  {
    HibernatingClearsTheFlag(t, w);
    MeanwhileFlagStaysClear(t, OnEvent(t, w, SystemHibernating), hs);
    var off := Meanwhile(t, OnEvent(t, w, SystemHibernating), hs);
    WakeOverLostRegisters(t, off, off.ec.mem);
  }

  /**
   * Sleep is different: the flag stays set, so after losing its registers the chip shows the LED
   * setting again exactly when the mode is automatic or the two skipped registers survived.
   */
  lemma {:induction false} SleepThenWakeIff(t: Table, w: World, mem: Memory)
    requires Distinct(t) && FansAllowed(w.state)
    ensures var asleep := OnEvent(t, w, SystemSleeping);
            var on := OnEvent(t, asleep.(ec := asleep.ec.(mem := mem)), SystemWakingUp);
            && Coherent(t, on.ec, on.state)
            && (LedShows(t, on.ec, on.state.ledMode)
                <==> (on.state.ledMode.Auto? || (mem[t(Bypass)] == 1 && mem[t(A0Mux)] == 0)))
  {
    SleepingSetsTheFlag(t, w);
    WakeOverLostRegisters(t, OnEvent(t, w, SystemSleeping), mem);
  }

  lemma SleepingSetsTheFlag(t: Table, w: World)
    requires Distinct(t)
    ensures var asleep := OnEvent(t, w, SystemSleeping);
        asleep.ec.ledCustom && (FansAllowed(w.state) ==> FansAllowed(asleep.state))
  {
    LedAppliesIff(t, w.ec, Animation(SLEEP_BREATH));
  }

  /** Shut down and start again over arbitrary registers: every setting survives and is in force. */
  lemma SettingsSurviveReboot(t: Table, w: World, mem: Memory, id: u64)
    requires Distinct(t) && Inv(t, w)
    ensures var w' := Serve(t, OnEvent(t, w, SystemShuttingDown), Restart(mem, id));
            w'.state == w.state && Coherent(t, w'.ec, w'.state) && LedShows(t, w'.ec, w'.state.ledMode)
  {
    LedOverrideKeepsInv(t, w, PowerLedMode.Auto);
    RestartRestores(t, LedOverride(t, w, PowerLedMode.Auto), mem, id);
  }

  lemma RestartRestores(t: Table, w: World, mem: Memory, id: u64)
    requires Distinct(t) && FansAllowed(w.state) && w.disk == Some(w.state)
    ensures var w' := Serve(t, w, Restart(mem, id));
        w'.state == w.state && Inv(t, w') && LedShows(t, w'.ec, w.state.ledMode)
  {
    JustRestored(t, Ec(mem, false), Serve(t, w, Restart(mem, id)));
  }

  // ---- The skipped writes ----

  function Forget(w: World): World { w.(ec := w.ec.(ledCustom := false)) }

  /** A daemon that never skips: it forgets the flag before every input. */
  function EagerRun(t: Table, w: World, xs: seq<Input>): World
    requires AllServed(xs)
  {
    if xs == [] then w else Serve(t, Forget(EagerRun(t, w, xs[..|xs| - 1])), xs[|xs| - 1])
  }

  function RestAfterLed(s: CurrentSettings): seq<Act> {
    ProfileActs(s.powerProfile) + ChargeActs(s.chargeLimit) + FanRestoreActs(s)
  }

  /** `restore_state` in three parts. */
  function AroundLed(t: Table, e: Ec, s: CurrentSettings): Ec {
    Do(t, LedAfterKeys(t, e, KeyboardActs(s.keyboardBacklight), s.ledMode), RestAfterLed(s))
  }

  function LedAfterKeys(t: Table, e: Ec, k: seq<Act>, mode: PowerLedMode): Ec {
    Do(t, Do(t, e, k), LedActs(e.ledCustom, mode))
  }

  lemma RestoreAroundLed(t: Table, e: Ec, s: CurrentSettings)
    ensures Restore(t, e, s) == AroundLed(t, e, s)
  {
    var k, l := KeyboardActs(s.keyboardBacklight), LedActs(e.ledCustom, s.ledMode);
    var p, c, f := ProfileActs(s.powerProfile), ChargeActs(s.chargeLimit), FanRestoreActs(s);
    Regroup(k, l, p, c, f);
    DoAppend(t, e, k + l, p + c + f);
    DoAppend(t, e, k, l);
  }

  lemma RestoreIgnoresSoundFlag(t: Table, e: Ec, s: CurrentSettings)
    requires Distinct(t) && FlagSound(t, e)
    ensures Restore(t, e, s) == Restore(t, e.(ledCustom := false), s)
  {
    RestoreAroundLed(t, e, s);
    RestoreAroundLed(t, e.(ledCustom := false), s);
    AroundLedIgnoresFlag(t, e, s);
  }

  lemma AroundLedIgnoresFlag(t: Table, e: Ec, s: CurrentSettings)
    requires Distinct(t) && FlagSound(t, e)
    ensures AroundLed(t, e, s) == AroundLed(t, e.(ledCustom := false), s)
  {
    LedAfterKeyboard(t, e, KeyboardActs(s.keyboardBacklight), s.ledMode);
  }

  lemma LedAfterKeyboard(t: Table, e: Ec, k: seq<Act>, mode: PowerLedMode)
    requires Distinct(t) && FlagSound(t, e) && Within(k, Keyboard) && forall i :: 0 <= i < |k| ==> k[i].Write?
    ensures LedAfterKeys(t, e, k, mode) == LedAfterKeys(t, e.(ledCustom := false), k, mode)
  {
    FlagSoundStays(t, e, k, Keyboard);
    PlainActsIgnoreFlag(t, e, k);
    SkippingIsInvisible(t, Do(t, e, k), mode);
  }

  lemma PlainActsIgnoreFlag(t: Table, e: Ec, acts: seq<Act>)
    requires forall i :: 0 <= i < |acts| ==> acts[i].Write?
    ensures Do(t, e, acts).(ledCustom := false) == Do(t, e.(ledCustom := false), acts)
  {
    MemoryIgnoresFlag(t, e, acts);
    FlagUntouched(t, e.(ledCustom := false), acts);
  }

  lemma SetIgnoresFlag(t: Table, w: World, acts: seq<Act>, s: CurrentSettings)
    requires forall i :: 0 <= i < |acts| ==> acts[i].Write?
    ensures Forget(Set(t, w, acts, s).0) == Forget(Set(t, Forget(w), acts, s).0)
  {
    MemoryIgnoresFlag(t, w.ec, acts);
  }

  lemma DefaultsIgnoreSoundFlag(t: Table, w: World, id: u64)
    requires Distinct(t) && FlagSound(t, w.ec)
    ensures Forget(OnRequest(t, w, Command(RestoreDefaults), id).0)
        == Forget(OnRequest(t, Forget(w), Command(RestoreDefaults), id).0)
  {
    RestoreIgnoresSoundFlag(t, w.ec, DefaultSettings(id));
  }

  lemma ApplyIgnoresSoundFlag(t: Table, w: World, id: u64)
    requires Distinct(t) && FlagSound(t, w.ec)
    ensures Forget(OnRequest(t, w, Command(ApplySettings), id).0)
        == Forget(OnRequest(t, Forget(w), Command(ApplySettings), id).0)
  {
    RestoreIgnoresSoundFlag(t, w.ec, w.state);
  }

  lemma CommandIgnoresSoundFlag(t: Table, w: World, c: DaemonCommand, id: u64)
    requires Distinct(t) && FlagSound(t, w.ec) && Served(Command(c))
    ensures Forget(OnRequest(t, w, Command(c), id).0) == Forget(OnRequest(t, Forget(w), Command(c), id).0)
  {
    match c {
      case RestoreDefaults => DefaultsIgnoreSoundFlag(t, w, id);
      case ApplySettings => ApplyIgnoresSoundFlag(t, w, id);
      case _ =>
    }
  }

  lemma SetLedIgnoresSoundFlag(t: Table, w: World, m: PowerLedMode, s: CurrentSettings)
    requires Distinct(t) && FlagSound(t, w.ec)
    ensures Set(t, w, LedActs(w.ec.ledCustom, m), s).0 == Set(t, Forget(w), LedActs(false, m), s).0
  {
    SkippingIsInvisible(t, w.ec, m);
  }

  lemma PlainIgnoresFlag(t: Table, w: World, req: IpcRequest, id: u64)
    requires req.SetPowerProfile? || req.SetFanMode? || req.SetKeyboardBacklight? || req.SetChargeLimit?
    ensures Forget(OnRequest(t, w, req, id).0) == Forget(OnRequest(t, Forget(w), req, id).0)
  {
    match req {
      case SetPowerProfile(p) => SetIgnoresFlag(t, w, ProfileActs(p), w.state.(powerProfile := p));
      case SetFanMode(fan, mode) => SetIgnoresFlag(t, w, FanActs(fan, mode), WithFan(w.state, fan, mode));
      case SetKeyboardBacklight(k) => SetIgnoresFlag(t, w, KeyboardActs(k), w.state.(keyboardBacklight := k));
      case SetChargeLimit(c) => SetIgnoresFlag(t, w, ChargeActs(c), w.state.(chargeLimit := c));
    }
  }

  lemma RequestIgnoresSoundFlag(t: Table, w: World, req: IpcRequest, id: u64)
    requires Distinct(t) && FlagSound(t, w.ec) && Served(req)
    ensures Forget(OnRequest(t, w, req, id).0) == Forget(OnRequest(t, Forget(w), req, id).0)
  {
    match req {
      case SetPowerProfile(_) | SetFanMode(_, _) | SetKeyboardBacklight(_) | SetChargeLimit(_) =>
        PlainIgnoresFlag(t, w, req, id);
      case SetLedMode(m) => SetLedIgnoresSoundFlag(t, w, m, w.state.(ledMode := m));
      case Command(c) => CommandIgnoresSoundFlag(t, w, c, id);
      case _ =>
    }
  }

  lemma EventIgnoresSoundFlag(t: Table, w: World, ev: InternalEvent)
    requires Distinct(t) && FlagSound(t, w.ec)
    ensures Forget(OnEvent(t, w, ev)) == Forget(OnEvent(t, Forget(w), ev))
  {
    match ev {
      case SystemShuttingDown | SystemHibernating => SkippingIsInvisible(t, w.ec, PowerLedMode.Auto);
      case SystemSleeping => SkippingIsInvisible(t, w.ec, Animation(SLEEP_BREATH));
      case SystemWakingUp => RestoreIgnoresSoundFlag(t, w.ec, w.state);
      case _ =>
    }
  }

  lemma ServeIgnoresSoundFlag(t: Table, w: World, x: Input)
    requires Distinct(t) && FlagSound(t, w.ec) && Answerable(x)
    ensures Forget(Serve(t, w, x)) == Forget(Serve(t, Forget(w), x))
  {
    match x {
      case Request(req, id) => RequestIgnoresSoundFlag(t, w, req, id);
      case Event(ev) => EventIgnoresSoundFlag(t, w, ev);
      case _ =>
    }
  }

  /** Skipping is sound over whole runs: registers, settings and file are those of the daemon that never skips. */
  lemma {:induction false} SkippingRefinesEager(t: Table, start: Ec, disk: Option<CurrentSettings>, id: u64,
          xs: seq<Input>)
    requires Distinct(t) && DiskAllowed(disk) && AllServed(xs)
    ensures var w0 := Start(t, start, disk, id); Forget(Run(t, w0, xs)) == Forget(EagerRun(t, w0, xs))
  {
    if xs != [] {
      var w0, rest := Start(t, start, disk, id), xs[..|xs| - 1];
      SkippingRefinesEager(t, start, disk, id, rest);
      CoherenceOverRuns(t, start, disk, id, rest);
      ServeIgnoresSoundFlag(t, Run(t, w0, rest), xs[|xs| - 1]);
    }
  }

  // ---- What the registers determine, and what they do not ----

  /** Two fan modes look alike in the registers only if they are equal or `Full` and `Custom(150)`. */
  lemma FanPairCollides(a: FanMode, b: FanMode)
    ensures FanPair(a) == FanPair(b) <==> a == b || {a, b} == {Full, FanMode.Custom(150)}
  {
    if {a, b} == {Full, FanMode.Custom(150)} {
      assert a in {a, b} && b in {a, b} && Full in {a, b} && FanMode.Custom(150) in {a, b};
    }
  }

  /** Registers that encode two settings records encode the same one, up to that fan mode. */
  lemma RegistersDetermineSettings(t: Table, e: Ec, a: CurrentSettings, b: CurrentSettings)
    requires Coherent(t, e, a) && Coherent(t, e, b) && LedShows(t, e, a.ledMode) && LedShows(t, e, b.ledMode)
    ensures a.keyboardBacklight == b.keyboardBacklight && a.powerProfile == b.powerProfile
    ensures a.chargeLimit == b.chargeLimit && a.ledMode == b.ledMode
    ensures FanPair(a.fanModeCpu) == FanPair(b.fanModeCpu) && FanPair(a.fanModeGpu) == FanPair(b.fanModeGpu)
  {
    ReadBackIsFixpoint(t, e, a);
    ReadBackIsFixpoint(t, e, b);
    assert Shows(t, e, a, Fan(Cpu)) && Shows(t, e, b, Fan(Cpu)) && Shows(t, e, a, Fan(Gpu)) && Shows(t, e, b, Fan(Gpu));
    if a.ledMode.Animation? && b.ledMode.Animation? {
      BreathBytesAreInjective(a.ledMode.config, b.ledMode.config);
    }
  }

  /** One input: the worker's flag and the telemetry setting part ways only in one case. */
  lemma WorkerStep(t: Table, w: World, x: Input)
    requires Answerable(x)
    ensures var w' := Serve(t, w, x);
            && (SwitchesWorker(x) ==> w'.worker == w'.state.telemetryEnabled)
            && (ResetsSettings(x) ==> w'.state.telemetryEnabled && w'.worker == w.worker)
            && (!SwitchesWorker(x) && !ResetsSettings(x)
                ==> w'.worker == w.worker && w'.state.telemetryEnabled == w.state.telemetryEnabled)
  {
    match x {
      case Request(req, id) =>
        if !SwitchesWorker(x) && !ResetsSettings(x) {
          OtherRequestsKeepWorker(t, w, req, id);
        }
      case Event(ev) => EventsKeepWorker(t, w, ev);
      case _ =>
    }
  }

  lemma OtherRequestsKeepWorker(t: Table, w: World, req: IpcRequest, id: u64)
    requires Served(req) && !SwitchesWorker(Request(req, id)) && !ResetsSettings(Request(req, id))
    ensures var w' := OnRequest(t, w, req, id).0;
            w'.worker == w.worker && w'.state.telemetryEnabled == w.state.telemetryEnabled
  {
    match req {
      case Command(c) =>
      case SetFanMode(fan, mode) =>
      case _ =>
    }
  }

  lemma EventsKeepWorker(t: Table, w: World, ev: InternalEvent)
    ensures var w' := OnEvent(t, w, ev);
            w'.worker == w.worker && w'.state.telemetryEnabled == w.state.telemetryEnabled
  {
  }

  predicate SwitchesWorker(x: Input) {
    x.Restart? || (x.Request? && x.req.Command? && x.req.command.ActivateTelemetry?)
  }

  predicate ResetsSettings(x: Input) { x.Request? && x.req == Command(RestoreDefaults) }

  /** The input at `i` resets the settings of a daemon whose worker is off, and nothing switches it later. */
  ghost predicate ResetWhileOff(t: Table, w: World, xs: seq<Input>, i: nat)
    requires AllServed(xs)
  {
    && i < |xs| && ResetsSettings(xs[i]) && !Run(t, w, xs[..i]).worker
    && forall j :: i < j < |xs| ==> !SwitchesWorker(xs[j])
  }

  lemma ResetWhileOffExtend(t: Table, w: World, xs: seq<Input>, i: nat)
    requires AllServed(xs) && xs != [] && i < |xs| - 1
    ensures ResetWhileOff(t, w, xs, i) <==> ResetWhileOff(t, w, xs[..|xs| - 1], i) && !SwitchesWorker(xs[|xs| - 1])
  {
    assert xs[..|xs| - 1][..i] == xs[..i];
  }

  lemma {:induction false} WorkerApart(t: Table, w: World, xs: seq<Input>)
    requires w.worker == w.state.telemetryEnabled && AllServed(xs)
    ensures var w' := Run(t, w, xs);
            w'.worker != w'.state.telemetryEnabled ==> !w'.worker && exists i :: ResetWhileOff(t, w, xs, i)
  {
    if xs != [] {
      var n := |xs| - 1;
      WorkerApart(t, w, xs[..n]);
      WorkerStep(t, Run(t, w, xs[..n]), xs[n]);
      if i :| ResetWhileOff(t, w, xs[..n], i) {
        ResetWhileOffExtend(t, w, xs, i);
      }
      assert ResetsSettings(xs[n]) && !Run(t, w, xs[..n]).worker ==> ResetWhileOff(t, w, xs, n);
    }
  }

  lemma {:induction false} WorkerStaysApart(t: Table, w: World, xs: seq<Input>, i: nat)
    requires AllServed(xs) && ResetWhileOff(t, w, xs, i)
    ensures var w' := Run(t, w, xs); !w'.worker && w'.state.telemetryEnabled
  {
    var n := |xs| - 1;
    var before := Run(t, w, xs[..n]);
    if i < n {
      ResetWhileOffExtend(t, w, xs, i);
      WorkerStaysApart(t, w, xs[..n], i);
      assert !SwitchesWorker(xs[n]);
    } else {
      assert ResetsSettings(xs[n]) && !before.worker;
    }
    ApartStep(t, before, xs[n]);
    RunLast(t, w, xs);
  }

  lemma RunLast(t: Table, w: World, xs: seq<Input>)
    requires AllServed(xs) && xs != []
    ensures Run(t, w, xs) == Serve(t, Run(t, w, xs[..|xs| - 1]), xs[|xs| - 1])
  {
  }

  lemma ApartStep(t: Table, w: World, x: Input)
    requires Answerable(x) && !SwitchesWorker(x) && !w.worker && (w.state.telemetryEnabled || ResetsSettings(x))
    ensures var w' := Serve(t, w, x); !w'.worker && w'.state.telemetryEnabled
  {
    WorkerStep(t, w, x);
  }

  /**
   * Over whole runs the worker's flag is the telemetry setting, exactly unless the settings were reset
   * while the worker was off and nothing has switched it since.
   */
  lemma {:induction false} WorkerFollowsSettingIff(t: Table, w: World, xs: seq<Input>)
    requires w.worker == w.state.telemetryEnabled && AllServed(xs)
    ensures Run(t, w, xs).worker == Run(t, w, xs).state.telemetryEnabled
            <==> !exists i :: ResetWhileOff(t, w, xs, i)
  {
    WorkerApart(t, w, xs);
    if i :| ResetWhileOff(t, w, xs, i) {
      WorkerStaysApart(t, w, xs, i);
    }
  }
}
