/**
 * The request handlers and the event loop of the daemon: daemon/src/handlers.rs, daemon/src/main.rs.
 *
 * The specification functions say what happens when nothing fails; the methods also cover port calls
 * that fail, a settings lock that another thread holds, and saving that fails. `disk` is the saved
 * file, None when there is no usable one; `worker` is the enable flag of the telemetry worker.
 */
module Daemon {
  import opened Bytes
  import opened EcActs
  import opened EcPort
  import opened EcDevice
  import opened EcRegs
  import opened Messages
  import opened Settings

  datatype InternalEvent =
    | SystemShuttingDown | SystemSleeping | SystemHibernating | SystemWakingUp
    | ChargerConnected | ChargerDisconnected

  datatype World = World(ec: Ec, state: CurrentSettings, disk: Option<CurrentSettings>, worker: bool)

  // ---- What each request and event does when no port call fails ----

  predicate FansAllowed(s: CurrentSettings) {
    FanAllowed(s.fanModeCpu) && FanAllowed(s.fanModeGpu)
  }

  /** `restore_state`: it stops at the first fan whose stored duty is over the limit. */
  function RestoreActs(flag: bool, s: CurrentSettings): seq<Act> {
    KeyboardActs(s.keyboardBacklight) + LedActs(flag, s.ledMode) + ProfileActs(s.powerProfile)
        + ChargeActs(s.chargeLimit)
    + FanRestoreActs(s)
  }

  function FanRestoreActs(s: CurrentSettings): seq<Act> {
    if !FanAllowed(s.fanModeCpu) then []
    else FanActs(Cpu, s.fanModeCpu) + if FanAllowed(s.fanModeGpu) then FanActs(Gpu, s.fanModeGpu) else []
  }

  function Restore(t: Table, e: Ec, s: CurrentSettings): Ec {
    Do(t, e, RestoreActs(e.ledCustom, s))
  }

  /** What `read_and_save_state` stores: whatever it can decode replaces the remembered value. */
  function ReadBack(t: Table, e: Ec, s: CurrentSettings): CurrentSettings {
    var k, p, c := KeyboardOf(t, e), ProfileOf(t, e), FromPredefined(ChargeOf(t, e).0, ChargeOf(t, e).1);
    s.(keyboardBacklight := if k.Done? then k.value else s.keyboardBacklight,
       powerProfile := if p.Done? then p.value else s.powerProfile,
       chargeLimit := if c.Some? then c.value else s.chargeLimit)
  }

  function LedOverride(t: Table, w: World, mode: PowerLedMode): World {
    var e := Do(t, w.ec, LedActs(w.ec.ledCustom, mode));
    var s := ReadBack(t, e, w.state);
    w.(ec := e, state := s, disk := Some(s))
  }

  function BatteryLeds(t: Table, e: Ec, orange: bool, white: bool): Ec {
    DoAct(t, e, Write(PortA, BatteryByte(e.At(t, PortA), orange, white)))
  }

  /** The battery LEDs, low-active: orange is bit 1 of port A, white is bit 2. */
  predicate OrangeLit(portA: byte) { portA / 2 % 2 == 0 }

  predicate WhiteLit(portA: byte) { portA / 4 % 2 == 0 }

  /**
   * With the charger connected, white is lit from the maximum limit on and orange below it; with the
   * charger disconnected, neither. No other bit and no other register changes.
   */
  ghost predicate ChargerLit(t: Table, before: Memory, after: Memory, connected: bool) {
    && (WhiteLit(after[t(PortA)]) <==> connected && before[t(Rsoc)] >= before[t(LimitMax)])
    && (OrangeLit(after[t(PortA)]) <==> connected && before[t(Rsoc)] < before[t(LimitMax)])
    && after[t(PortA)] % 2 == before[t(PortA)] % 2 && after[t(PortA)] / 8 == before[t(PortA)] / 8
    && after == before[t(PortA) := after[t(PortA)]]
  }

  lemma ChargerLights(t: Table, w: World)
    ensures ChargerLit(t, w.ec.mem, OnEvent(t, w, ChargerConnected).ec.mem, true)
    ensures ChargerLit(t, w.ec.mem, OnEvent(t, w, ChargerDisconnected).ec.mem, false)
  {
    var a := w.ec.At(t, PortA);
    BatteryBits(a, true, false);
    BatteryBits(a, false, true);
    BatteryBits(a, false, false);
  }

  function OnEvent(t: Table, w: World, ev: InternalEvent): World {
    match ev
    case SystemShuttingDown | SystemHibernating => LedOverride(t, w, PowerLedMode.Auto)
    case SystemSleeping => LedOverride(t, w, Animation(SLEEP_BREATH))
    case SystemWakingUp => w.(ec := Restore(t, w.ec, w.state))
    case ChargerConnected =>
      var full := w.ec.At(t, Rsoc) >= ChargeOf(t, w.ec).1;
      w.(ec := BatteryLeds(t, w.ec, !full, full))
    case ChargerDisconnected => w.(ec := BatteryLeds(t, w.ec, false, false))
  }

  /** Requests the daemon answers; the other four are `todo!()`. */
  predicate Served(req: IpcRequest) {
    req.Command? ==> !req.command.ActivateProcessSuspend? && !req.command.RunPrepareShutdown?
                     && !req.command.RunPrepareSuspend? && !req.command.RunPrepareResume?
  }

  predicate IsGetter(req: IpcRequest) {
    || req.GetSystemState? || req.GetFansRPM? || req.GetTemperatures?
    || req.GetChargeLimit? || req.GetPowerProfile? || req.GetKeyboardBacklight?
  }

  const FAILED := IpcResponse.Error([])

  function Set(t: Table, w: World, acts: seq<Act>, s: CurrentSettings): (World, IpcResponse) {
    (w.(ec := Do(t, w.ec, acts), state := s), Success)
  }

  function WithFan(s: CurrentSettings, fan: FanIndex, mode: FanMode): CurrentSettings {
    match fan
    case Cpu => s.(fanModeCpu := mode)
    case Gpu => s.(fanModeGpu := mode)
  }

  /** `do_work`; `id` is the client id a reset to defaults would draw. */
  function OnRequest(t: Table, w: World, req: IpcRequest, id: u64): (World, IpcResponse)
    requires Served(req)
  {
    match req
    case GetSystemState =>
      var (id1, id2, ver) := ChipIds(t, w.ec);
      (w, SystemInfo(ChipName(id1, id2), Hex2(ver), WindowOf(t), DaemonVersion()))
    case GetFansRPM => (w, FanRPM(RpmOf(t, w.ec, Cpu), RpmOf(t, w.ec, Gpu)))
    case GetTemperatures => (w, Temp(w.ec.At(t, TempCpu), w.ec.At(t, TempSys)))
    case GetChargeLimit => (w, ChargeLimits(ChargeOf(t, w.ec).0, ChargeOf(t, w.ec).1, w.ec.At(t, Rsoc)))
    case GetPowerProfile => (w, match ProfileOf(t, w.ec) case Done(p) => PowerLimit(p) case Failed => FAILED)
    case GetKeyboardBacklight =>
      (w, match KeyboardOf(t, w.ec) case Done(k) => KeyboardBacklight(k) case Failed => FAILED)
    case SetPowerProfile(p) => Set(t, w, ProfileActs(p), w.state.(powerProfile := p))
    case SetFanMode(fan, mode) =>
      if !FanAllowed(mode) then (w, FAILED)
      else Set(t, w, FanActs(fan, mode), WithFan(w.state, fan, mode))
    case SetKeyboardBacklight(k) => Set(t, w, KeyboardActs(k), w.state.(keyboardBacklight := k))
    case SetChargeLimit(c) => Set(t, w, ChargeActs(c), w.state.(chargeLimit := c))
    case SetLedMode(m) => Set(t, w, LedActs(w.ec.ledCustom, m), w.state.(ledMode := m))
    case Command(RestoreDefaults) =>
      var s := DefaultSettings(id);
      (w.(ec := Restore(t, w.ec, s), state := s, disk := Some(s)), Success)
    case Command(ActivateTelemetry(on)) =>
      var s := w.state.(telemetryEnabled := on);
      (w.(state := s, disk := Some(s), worker := on), if on then Success else TelemetryDisabledInfo)
    case Command(ApplySettings) =>
      (w.(ec := Restore(t, w.ec, w.state)), if FansAllowed(w.state) then Success else FAILED)
    case Command(GetSettings) => (w, FromDaemon(DaemonResponse.Settings(w.state)))
    case Command(GetTelemetryId) => (w, FromDaemon(TelemetryId(w.state.telemetryClientId)))
  }

  /** `load_or_default`. */
  function Loaded(disk: Option<CurrentSettings>, id: u64): CurrentSettings {
    match disk case Some(d) => d case None => DefaultSettings(id)
  }

  /** A fresh process over registers `e`: load or default, then restore. */
  function Start(t: Table, mem: Ec, disk: Option<CurrentSettings>, id: u64): World {
    var s := Loaded(disk, id);
    World(Restore(t, mem.(ledCustom := false), s), s, disk, s.telemetryEnabled)
  }

  /** An operation that failed at no port call did all of its actions. */
  ghost predicate Restored(t: Table, before: Ec, after: Ec, s: CurrentSettings, ok: bool) {
    exists whole :: Partly(t, before, after, RestoreActs(before.ledCustom, s), whole)
        && (ok <==> whole && FansAllowed(s))
  }

  // ---- What is left of that when port calls fail ----

  /** The actions of a request, in order. */
  function RequestActs(w: World, req: IpcRequest, id: u64): seq<Act> {
    match req
    case SetPowerProfile(p) => ProfileActs(p)
    case SetFanMode(fan, mode) => if FanAllowed(mode) then FanActs(fan, mode) else []
    case SetKeyboardBacklight(k) => KeyboardActs(k)
    case SetChargeLimit(c) => ChargeActs(c)
    case SetLedMode(m) => LedActs(w.ec.ledCustom, m)
    case Command(RestoreDefaults) => RestoreActs(w.ec.ledCustom, DefaultSettings(id))
    case Command(ApplySettings) => RestoreActs(w.ec.ledCustom, w.state)
    case _ => []
  }

  /** The actions of an event, as far as they do not depend on what is read. */
  function EventActs(w: World, ev: InternalEvent): seq<Act> {
    match ev
    case SystemShuttingDown | SystemHibernating => LedActs(w.ec.ledCustom, PowerLedMode.Auto)
    case SystemSleeping => LedActs(w.ec.ledCustom, Animation(SLEEP_BREATH))
    case SystemWakingUp => RestoreActs(w.ec.ledCustom, w.state)
    case _ => []
  }

  /** A prefix of `acts` was performed, and all of it if `ok`. */
  ghost predicate PartOf(t: Table, before: Ec, after: Ec, acts: seq<Act>, ok: bool) {
    exists whole :: Partly(t, before, after, acts, whole) && (ok ==> whole)
  }

  /** A setter: `ok` exactly if all writes worked and the settings could be locked afterwards. */
  ghost predicate Applied(t: Table, before: Ec, after: Ec, acts: seq<Act>, stateFree: bool, ok: bool) {
    exists whole :: Partly(t, before, after, acts, whole) && (ok <==> whole && stateFree)
  }

  /**
   * Saving the settings. Creating the file may fail; once it is created it is empty, and an error
   * while the buffered record is flushed goes unnoticed.
   */
  datatype Saving = Written | Refused | Torn

  function Save(disk: Option<CurrentSettings>, s: CurrentSettings, saving: Saving): Option<CurrentSettings> {
    match saving
    case Written => Some(s)
    case Refused => disk
    case Torn => None
  }

  /** Whether `get_state` finds the settings unlocked, and how saving goes. */
  datatype Env = Env(stateFree: bool, saving: Saving) {
    predicate Calm() { stateFree && saving.Written? }
  }

  /** Settings, file and worker after a request that was answered with `resp`. */
  function Settled(t: Table, w: World, req: IpcRequest, id: u64, env: Env, resp: IpcResponse)
    : (CurrentSettings, Option<CurrentSettings>, bool)
    requires Served(req)
  {
    var kept := (w.state, w.disk, w.worker);
    match req
    case Command(RestoreDefaults) =>
      var s := DefaultSettings(id);
      if env.stateFree then (s, Save(w.disk, s, env.saving), w.worker) else kept
    case Command(ActivateTelemetry(on)) =>
      var s := w.state.(telemetryEnabled := on);
      if env.stateFree then (s, Save(w.disk, s, env.saving), if env.saving.Refused? then w.worker else on) else kept
    case Command(_) => kept
    case _ => if resp == FAILED then kept else (OnRequest(t, w, req, id).0.state, w.disk, w.worker)
  }

  /** What must work besides the hardware for a request to be answered without an error. */
  predicate Permitted(req: IpcRequest, env: Env) {
    match req
    case Command(RestoreDefaults) => env.stateFree && !env.saving.Refused?
    case Command(ActivateTelemetry(_)) => env.stateFree && !env.saving.Refused?
    case _ => env.stateFree || IsGetter(req)
  }

  /** Registers get a prefix of the request's writes; the answer is an error or, with all of them, the specified one. */
  ghost predicate Handled(t: Table, w: World, w': World, req: IpcRequest, id: u64, env: Env, resp: IpcResponse)
    requires Served(req)
  {
    && PartOf(t, w.ec, w'.ec, RequestActs(w, req, id), resp != FAILED)
    && (resp != FAILED ==> Permitted(req, env) && resp == OnRequest(t, w, req, id).1)
    && (w'.state, w'.disk, w'.worker) == Settled(t, w, req, id, env, resp)
  }

  /**
   * Each of the three settings that are read back is kept or replaced by what the registers encode;
   * nothing else changes.
   */
  ghost predicate Reread(t: Table, e: Ec, s: CurrentSettings, s': CurrentSettings) {
    && (s'.keyboardBacklight == s.keyboardBacklight || KeyboardOf(t, e) == Done(s'.keyboardBacklight))
    && (s'.powerProfile == s.powerProfile || ProfileOf(t, e) == Done(s'.powerProfile))
    && (s'.chargeLimit == s.chargeLimit || FromPredefined(ChargeOf(t, e).0, ChargeOf(t, e).1) == Some(s'.chargeLimit))
    && s' == s.(keyboardBacklight := s'.keyboardBacklight, powerProfile := s'.powerProfile,
        chargeLimit := s'.chargeLimit)
  }

  /** The three overrides save what they remember if they can; the other events leave settings and file alone. */
  ghost predicate EventHandled(t: Table, w: World, w': World, ev: InternalEvent, env: Env, ok: bool) {
    && w'.worker == w.worker
    && (if ev.ChargerConnected? || ev.ChargerDisconnected?
        then w'.ec == w.ec || w'.ec == OnEvent(t, w, ev).ec
        else PartOf(t, w.ec, w'.ec, EventActs(w, ev), ok))
    && (if env.stateFree && (ev.SystemShuttingDown? || ev.SystemHibernating? || ev.SystemSleeping?)
        then Reread(t, w'.ec, w.state, w'.state) && w'.disk == Save(w.disk, w'.state, env.saving)
        else w'.state == w.state && w'.disk == w.disk)
  }

  /** A start-up; `ok` if the restoration succeeded, which is only logged. */
  ghost predicate BootHandled(t: Table, e: Ec, disk: Option<CurrentSettings>, id: u64, w: World, ok: bool) {
    && (w.state, w.disk, w.worker) == (Start(t, e, disk, id).state, disk, Start(t, e, disk, id).worker)
    && PartOf(t, e, w.ec, RestoreActs(e.ledCustom, w.state), ok)
  }

  /**
   * What becomes of a command when the settings are locked or saving goes wrong. A refused save stops a
   * reset before the chip is touched, but the remembered settings have changed by then.
   */
  ghost predicate CommandSettles(w: World, w': World, c: DaemonCommand, env: Env, resp: IpcResponse) {
    if !env.stateFree then w' == w && resp == FAILED
    else match c
         case GetSettings => w' == w && resp == FromDaemon(DaemonResponse.Settings(w.state))
         case GetTelemetryId => w' == w && resp == FromDaemon(TelemetryId(w.state.telemetryClientId))
         case ApplySettings => (w'.state, w'.disk, w'.worker) == (w.state, w.disk, w.worker)
         case RestoreDefaults =>
           && w'.state == DefaultSettings(w'.state.telemetryClientId) && w'.worker == w.worker
           && SavedAs(w, w', env.saving) && (env.saving.Refused? ==> w'.ec == w.ec && resp == FAILED)
         case ActivateTelemetry(on) =>
           && w'.ec == w.ec && w'.state == w.state.(telemetryEnabled := on) && SavedAs(w, w', env.saving)
           && (if env.saving.Refused? then w'.worker == w.worker && resp == FAILED
               else w'.worker == on && resp == if on then Success else TelemetryDisabledInfo)
         case _ => true
  }

  predicate SavedAs(w: World, w': World, saving: Saving) {
    match saving
    case Written => w'.disk == Some(w'.state)
    case Refused => w'.disk == w.disk
    case Torn => w'.disk == None
  }

  /** A reset connection saves the settings if it can. */
  function AfterReset(w: World, env: Env): World {
    if env.stateFree then w.(disk := Save(w.disk, w.state, env.saving)) else w
  }

  class Daemon {
    const ec: EcDevice
    var state: CurrentSettings
    var disk: Option<CurrentSettings>
    var worker: bool
    ghost var restored: bool   // whether the restoration at start-up succeeded

    ghost predicate Valid() { ec.Valid() }

    ghost function Now(): World
      reads this, ec, ec.io
    {
      World(ec.Now(), state, disk, worker)
    }

    /** The daemon's start-up, over an opened chip and the file left by the previous run. */
    constructor (ec: EcDevice, disk: Option<CurrentSettings>, id: u64)
      requires ec.Valid() && !ec.ledCustom
      modifies ec, ec.io
      ensures this.ec == ec && Valid()
      ensures BootHandled(ec.table, old(ec.Now()), disk, id, Now(), restored)
      ensures old(ec.io.Clean()) ==> ec.io.Clean() && Now() == Start(ec.table, old(ec.Now()), disk, id)
      ensures old(ec.io.Clean()) ==> (restored <==> FansAllowed(Loaded(disk, id)))
    {
      this.ec := ec;
      var s := Loaded(disk, id);
      this.state, this.disk, this.worker := s, disk, s.telemetryEnabled;
      new;
      var r := RestoreState(s);   // a failure is logged, the daemon runs on
      restored := r.Done?;
    }

    method RestoreState(s: CurrentSettings) returns (r: Io<()>)
      requires Valid()
      modifies ec, ec.io
      ensures Restored(ec.table, old(ec.Now()), ec.Now(), s, r.Done?)
      ensures old(ec.io.Clean()) ==> (r.Done? <==> FansAllowed(s)) && ec.io.Clean()
      ensures old(ec.io.Clean()) ==> ec.Now() == Restore(ec.table, old(ec.Now()), s)
    {
      ghost var t, e0, acts := ec.table, ec.Now(), RestoreActs(ec.ledCustom, s);
      ghost var k, l, p, c, f := KeyboardActs(s.keyboardBacklight), LedActs(ec.ledCustom, s.ledMode),
        ProfileActs(s.powerProfile), ChargeActs(s.chargeLimit), FanRestoreActs(s);
      Regroup(k, l, p, c, f);
      r := ec.ApplyKeyboardBacklight(s.keyboardBacklight);
      ghost var e1 := ec.Now();
      Stage(t, e0, e0, e1, [], k, l + p + c + f, acts, r.Done?);
      if r.Failed? { return; }
      r := ec.ApplyLedMode(s.ledMode);
      ghost var e2 := ec.Now();
      Stage(t, e0, e1, e2, k, l, p + c + f, acts, r.Done?);
      if r.Failed? { return; }
      r := ec.ApplyPowerProfile(s.powerProfile);
      ghost var e3 := ec.Now();
      Stage(t, e0, e2, e3, k + l, p, c + f, acts, r.Done?);
      if r.Failed? { return; }
      r := ec.ApplyChargeLimit(s.chargeLimit);
      ghost var e4 := ec.Now();
      Stage(t, e0, e3, e4, k + l + p, c, f, acts, r.Done?);
      if r.Failed? { return; }
      ghost var whole;
      r, whole := RestoreFans(s);
      Stage(t, e0, e4, ec.Now(), k + l + p + c, f, [], acts, whole);
    }

    /** The last two lines of `restore_state`; `whole` is false only after an I/O error. */
    method RestoreFans(s: CurrentSettings) returns (r: Io<()>, ghost whole: bool)
      requires Valid()
      modifies ec.io
      ensures Partly(ec.table, old(ec.Now()), ec.Now(), FanRestoreActs(s), whole)
          && (r.Done? <==> whole && FansAllowed(s))
      ensures old(ec.io.Clean()) ==> whole && ec.io.Clean()
    {
      ghost var t, e0, acts := ec.table, ec.Now(), FanRestoreActs(s);
      ghost var a, b := FanActs(Cpu, s.fanModeCpu), FanActs(Gpu, s.fanModeGpu);
      r := ec.ApplyFanMode(Cpu, s.fanModeCpu);
      if !FanAllowed(s.fanModeCpu) {
        NothingDone(t, e0);
        return r, true;
      }
      ghost var e1 := ec.Now();
      Stage(t, e0, e0, e1, [], a, if FanAllowed(s.fanModeGpu) then b else [], acts, r.Done?);
      if r.Failed? { return r, false; }
      r := ec.ApplyFanMode(Gpu, s.fanModeGpu);
      if !FanAllowed(s.fanModeGpu) {
        assert a + [] == a;
        NothingDone(t, e1);
        Stage(t, e0, e1, e1, a, [], [], acts, true);
        return r, true;
      }
      Stage(t, e0, e1, ec.Now(), a, b, [], acts, r.Done?);
      return r, r.Done?;
    }

    /** The closure `read_and_save_state`. */
    method ReadAndSaveState(env: Env)
      requires Valid()
      modifies this`state, this`disk, ec.io
      ensures ec.Now() == old(ec.Now()) && worker == old(worker)
      ensures if env.stateFree
              then Reread(ec.table, ec.Now(), old(state), state) && disk == Save(old(disk), state, env.saving)
              else state == old(state) && disk == old(disk)
      ensures old(ec.io.Clean()) ==> ec.io.Clean()
      ensures old(ec.io.Clean()) && env.stateFree ==> state == ReadBack(ec.table, ec.Now(), old(state))
    {
      if !env.stateFree {
        return;
      }
      var kbd := ec.ReadKeyboardBacklight();
      if kbd.Done? {
        state := state.(keyboardBacklight := kbd.value);
      }
      var profile := ec.ReadPowerProfile();
      if profile.Done? {
        state := state.(powerProfile := profile.value);
      }
      var limits := ec.ReadChargeLimit();
      if limits.Done? {
        var limit := FromPredefined(limits.value.0, limits.value.1);
        if limit.Some? {
          state := state.(chargeLimit := limit.value);
        }
      }
      disk := Save(disk, state, env.saving);
    }

    /** A connection was reset: the settings are saved if their lock is free. */
    method SaveOnReset(env: Env)
      modifies this`disk
      ensures Now() == AfterReset(old(Now()), env)
      ensures disk == if !env.stateFree || env.saving == Refused then old(disk)
                      else if env.saving == Written then Some(state) else None
    {
      if env.stateFree {
        disk := Save(disk, state, env.saving);
      }
    }

    /** An LED override before the machine powers down. */
    method Override(mode: PowerLedMode, env: Env) returns (ok: bool)
      requires Valid()
      modifies this`state, this`disk, ec, ec.io
      ensures PartOf(ec.table, old(ec.Now()), ec.Now(), LedActs(old(ec.ledCustom), mode), ok) && worker == old(worker)
      ensures if env.stateFree
              then Reread(ec.table, ec.Now(), old(state), state) && disk == Save(old(disk), state, env.saving)
              else state == old(state) && disk == old(disk)
      ensures old(ec.io.Clean()) && env.Calm() ==> ec.io.Clean() && Now() == LedOverride(ec.table, old(Now()), mode)
    {
      ghost var e0 := ec.Now();
      var r := ec.ApplyLedMode(mode);
      if r.Done? { WholeRun(ec.table, e0, ec.Now(), LedActs(e0.ledCustom, mode)); }
      ReadAndSaveState(env);
      return r.Done?;
    }

    method ShowCharging()
      requires Valid()
      modifies ec.io
      ensures ec.Now() == old(ec.Now()) || ec.Now() == OnEvent(ec.table, old(Now()), ChargerConnected).ec
      ensures old(ec.io.Clean()) ==> ec.io.Clean() && Now() == OnEvent(ec.table, old(Now()), ChargerConnected)
    {
      ghost var e0 := ec.Now();
      var current := ec.Read(Rsoc);
      if current.Done? {
        var limits := ec.ReadChargeLimit();
        if limits.Done? {
          if current.value >= limits.value.1 {
            var r := ec.ApplyBatteryLeds(false, true);
            assert r.Done? ==> ec.Now() == BatteryLeds(ec.table, e0, false, true);
          } else {
            var r := ec.ApplyBatteryLeds(true, false);
            assert r.Done? ==> ec.Now() == BatteryLeds(ec.table, e0, true, false);
          }
        }
      }
    }

    /** One round of `process_service`. The daemon ignores whether the hardware operation worked, `ok`. */
    method ProcessEvent(ev: InternalEvent, env: Env) returns (ok: bool)
      requires Valid()
      modifies this`state, this`disk, ec, ec.io
      ensures old(ec.io.Clean()) && env.Calm() ==> ec.io.Clean() && Now() == OnEvent(ec.table, old(Now()), ev)
      ensures EventHandled(ec.table, old(Now()), Now(), ev, env, ok)
      ensures ev.ChargerConnected? || ev.ChargerDisconnected? ==>
                || ChargerLit(ec.table, old(ec.io.mem), ec.io.mem, ev.ChargerConnected?)
                || (!old(ec.io.Clean()) && ec.io.mem == old(ec.io.mem))
    {
      ghost var e0 := ec.Now();
      ChargerLights(ec.table, Now());
      match ev {
        case SystemShuttingDown | SystemHibernating =>
          ok := Override(PowerLedMode.Auto, env);
        case SystemSleeping =>
          ok := Override(Animation(SLEEP_BREATH), env);
        case SystemWakingUp =>
          NothingOf(ec.table, e0, RestoreActs(e0.ledCustom, state));
          ok := false;
          if env.stateFree {
            var r := RestoreState(state);
            ok := r.Done?;
          }
        case ChargerConnected =>
          ok := true;
          ShowCharging();
        case ChargerDisconnected =>
          var r := ec.ApplyBatteryLeds(false, false);
          assert r.Done? ==> ec.Now() == BatteryLeds(ec.table, e0, false, false);
          ok := r.Done?;
      }
    }

    // ---- The setters: registers first, then the remembered settings; on an error only registers of that setting ----

    method SetChargeLimit(limit: ChargeLimit, stateFree: bool) returns (resp: IpcResponse)
      requires Valid()
      modifies this`state, ec.io
      ensures resp in {Success, FAILED}
      ensures Applied(ec.table, old(ec.Now()), ec.Now(), ChargeActs(limit), stateFree, resp.Success?)
      ensures state == if resp.Success? then old(state).(chargeLimit := limit) else old(state)
      ensures old(ec.io.Clean()) ==> resp.Success? == stateFree && ec.io.Clean()
    {
      var r := ec.ApplyChargeLimit(limit);
      if r.Failed? || !stateFree { return FAILED; }
      state := state.(chargeLimit := limit);
      return Success;
    }

    method SetKeyboardBacklight(level: KeyboardLevel, stateFree: bool) returns (resp: IpcResponse)
      requires Valid()
      modifies this`state, ec.io
      ensures resp in {Success, FAILED}
      ensures Applied(ec.table, old(ec.Now()), ec.Now(), KeyboardActs(level), stateFree, resp.Success?)
      ensures state == if resp.Success? then old(state).(keyboardBacklight := level) else old(state)
      ensures old(ec.io.Clean()) ==> resp.Success? == stateFree && ec.io.Clean()
    {
      var r := ec.ApplyKeyboardBacklight(level);
      if r.Failed? || !stateFree { return FAILED; }
      state := state.(keyboardBacklight := level);
      return Success;
    }

    method SetFanMode(fan: FanIndex, mode: FanMode, stateFree: bool) returns (resp: IpcResponse)
      requires Valid()
      modifies this`state, ec.io
      ensures resp in {Success, FAILED}
      ensures if FanAllowed(mode) then Applied(ec.table, old(ec.Now()), ec.Now(), FanActs(fan, mode), stateFree,
          resp.Success?)
              else resp.Error? && ec.Now() == old(ec.Now())
      ensures state == if resp.Error? then old(state)
                       else if fan.Cpu? then old(state).(fanModeCpu := mode) else old(state).(fanModeGpu := mode)
      ensures old(ec.io.Clean()) ==> (resp.Success? <==> FanAllowed(mode) && stateFree) && ec.io.Clean()
    {
      var r := ec.ApplyFanMode(fan, mode);
      if r.Failed? || !stateFree { return FAILED; }
      match fan {
        case Cpu => state := state.(fanModeCpu := mode);
        case Gpu => state := state.(fanModeGpu := mode);
      }
      return Success;
    }

    method SetPowerProfile(profile: PowerProfile, stateFree: bool) returns (resp: IpcResponse)
      requires Valid()
      modifies this`state, ec.io
      ensures resp in {Success, FAILED}
      ensures Applied(ec.table, old(ec.Now()), ec.Now(), ProfileActs(profile), stateFree, resp.Success?)
      ensures state == if resp.Success? then old(state).(powerProfile := profile) else old(state)
      ensures old(ec.io.Clean()) ==> resp.Success? == stateFree && ec.io.Clean()
    {
      var r := ec.ApplyPowerProfile(profile);
      if r.Failed? || !stateFree { return FAILED; }
      state := state.(powerProfile := profile);
      return Success;
    }

    method SetLedMode(mode: PowerLedMode, stateFree: bool) returns (resp: IpcResponse)
      requires Valid()
      modifies this`state, ec, ec.io
      ensures resp in {Success, FAILED}
      ensures Applied(ec.table, old(ec.Now()), ec.Now(), LedActs(old(ec.ledCustom), mode), stateFree, resp.Success?)
      ensures state == if resp.Success? then old(state).(ledMode := mode) else old(state)
      ensures old(ec.io.Clean()) ==> resp.Success? == stateFree && ec.io.Clean()
    {
      var r := ec.ApplyLedMode(mode);
      if r.Failed? || !stateFree { return FAILED; }
      state := state.(ledMode := mode);
      return Success;
    }

    method RestoreDefaults(id: u64, env: Env) returns (resp: IpcResponse)
      requires Valid()
      modifies this, ec, ec.io
      ensures old(ec.io.Clean()) && env.Calm() ==>
                && ec.io.Clean()
                && (Now(), resp) == OnRequest(ec.table, old(Now()), Command(DaemonCommand.RestoreDefaults), id)
      ensures Handled(ec.table, old(Now()), Now(), Command(DaemonCommand.RestoreDefaults), id, env, resp)
      ensures CommandSettles(old(Now()), Now(), DaemonCommand.RestoreDefaults, env, resp)
    {
      if !env.stateFree {
        NothingOf(ec.table, ec.Now(), RestoreActs(ec.ledCustom, DefaultSettings(id)));
        return FAILED;
      }
      state := DefaultSettings(id);
      disk := Save(disk, state, env.saving);
      if env.saving.Refused? {
        NothingOf(ec.table, ec.Now(), RestoreActs(ec.ledCustom, state));
        return FAILED;
      }
      ghost var e0 := ec.Now();
      var r := RestoreState(state);
      RestoredIsPart(ec.table, e0, ec.Now(), state, r.Done?);
      return if r.Failed? then FAILED else Success;
    }

    method ActivateTelemetry(on: bool, id: u64, env: Env) returns (resp: IpcResponse)
      requires Valid()
      modifies this
      ensures env.Calm() ==> (Now(), resp) == OnRequest(ec.table, old(Now()),
          Command(DaemonCommand.ActivateTelemetry(on)), id)
      ensures Handled(ec.table, old(Now()), Now(), Command(DaemonCommand.ActivateTelemetry(on)), id, env, resp)
      ensures CommandSettles(old(Now()), Now(), DaemonCommand.ActivateTelemetry(on), env, resp)
    {
      NothingDone(ec.table, ec.Now());
      if !env.stateFree { return FAILED; }
      state := state.(telemetryEnabled := on);
      disk := Save(disk, state, env.saving);
      if env.saving.Refused? { return FAILED; }
      worker := on;
      return if on then Success else TelemetryDisabledInfo;
    }

    method ApplySettings(id: u64, env: Env) returns (resp: IpcResponse)
      requires Valid()
      modifies ec, ec.io
      ensures old(ec.io.Clean()) && env.Calm() ==>
                && ec.io.Clean()
                && (Now(), resp) == OnRequest(ec.table, old(Now()), Command(DaemonCommand.ApplySettings), id)
      ensures Handled(ec.table, old(Now()), Now(), Command(DaemonCommand.ApplySettings), id, env, resp)
      ensures CommandSettles(old(Now()), Now(), DaemonCommand.ApplySettings, env, resp)
    {
      NothingOf(ec.table, ec.Now(), RestoreActs(ec.ledCustom, state));
      if !env.stateFree { return FAILED; }
      ghost var e0 := ec.Now();
      var r := RestoreState(state);
      RestoredIsPart(ec.table, e0, ec.Now(), state, r.Done?);
      return if r.Failed? then FAILED else Success;
    }

    /** `process_daemon_command`. */
    method ProcessDaemonCommand(command: DaemonCommand, id: u64, env: Env) returns (resp: IpcResponse)
      requires Valid() && Served(Command(command))
      modifies this, ec, ec.io
      ensures old(ec.io.Clean()) && env.Calm() ==>
                ec.io.Clean() && (Now(), resp) == OnRequest(ec.table, old(Now()), Command(command), id)
      ensures Handled(ec.table, old(Now()), Now(), Command(command), id, env, resp)
      ensures CommandSettles(old(Now()), Now(), command, env, resp)
    {
      match command {
        case RestoreDefaults => resp := RestoreDefaults(id, env);
        case ActivateTelemetry(on) => resp := ActivateTelemetry(on, id, env);
        case ApplySettings => resp := ApplySettings(id, env);
        case GetSettings =>
          NothingDone(ec.table, ec.Now());
          return if env.stateFree then FromDaemon(DaemonResponse.Settings(state)) else FAILED;
        case GetTelemetryId =>
          NothingDone(ec.table, ec.Now());
          return if env.stateFree then FromDaemon(TelemetryId(state.telemetryClientId)) else FAILED;
      }
    }

    /** The getters of `do_work`. */
    method Answer(req: IpcRequest) returns (resp: IpcResponse)
      requires Valid() && IsGetter(req)
      modifies ec.io
      ensures Now() == old(Now())
      ensures resp == FAILED || resp == OnRequest(ec.table, Now(), req, 0).1
      ensures old(ec.io.Clean()) ==> ec.io.Clean() && resp == OnRequest(ec.table, Now(), req, 0).1
    {
      match req {
        case GetSystemState =>
          var r := ec.ReadSystemInfo();
          WindowOfTable(ec.layout);
          return if r.Failed? then FAILED
                 else SystemInfo(ChipName(r.value.0, r.value.1), Hex2(r.value.2), ec.layout.hram, DaemonVersion());
        case GetFansRPM =>
          var r := ec.ReadFanRpm();
          return if r.Failed? then FAILED else FanRPM(r.value.0, r.value.1);
        case GetTemperatures =>
          var r := ec.ReadTemperatures();
          return if r.Failed? then FAILED else Temp(r.value.0, r.value.1);
        case GetChargeLimit =>
          var r := ec.ReadChargeLimit();
          if r.Failed? { return FAILED; }
          var current := ec.Read(Rsoc);
          return if current.Failed? then FAILED else ChargeLimits(r.value.0, r.value.1, current.value);
        case GetPowerProfile =>
          var r := ec.ReadPowerProfile();
          return if r.Failed? then FAILED else PowerLimit(r.value);
        case GetKeyboardBacklight =>
          var r := ec.ReadKeyboardBacklight();
          return if r.Failed? then FAILED else KeyboardBacklight(r.value);
      }
    }

    /** The setters of `do_work`. */
    method Apply(req: IpcRequest, stateFree: bool) returns (resp: IpcResponse)
      requires Valid() && !IsGetter(req) && !req.Command?
      modifies this`state, ec, ec.io
      ensures resp in {Success, FAILED} && (resp == FAILED ==> state == old(state))
      ensures Applied(ec.table, old(ec.Now()), ec.Now(), RequestActs(old(Now()), req, 0),
                      stateFree && RequestAllowed(req), resp.Success?)
      ensures resp.Success? ==> state == OnRequest(ec.table, old(Now()), req, 0).0.state
      ensures old(ec.io.Clean()) ==> ec.io.Clean() && (resp.Success? <==> stateFree && RequestAllowed(req))
    {
      NothingDone(ec.table, ec.Now());
      match req {
        case SetPowerProfile(p) => resp := SetPowerProfile(p, stateFree);
        case SetFanMode(fan, mode) => resp := SetFanMode(fan, mode, stateFree);
        case SetKeyboardBacklight(k) => resp := SetKeyboardBacklight(k, stateFree);
        case SetChargeLimit(c) => resp := SetChargeLimit(c, stateFree);
        case SetLedMode(m) => resp := SetLedMode(m, stateFree);
      }
    }

    /** `do_work`. */
    method DoWork(req: IpcRequest, id: u64, env: Env) returns (resp: IpcResponse)
      requires Valid() && Served(req)
      modifies this, ec, ec.io
      ensures old(ec.io.Clean()) && env.Calm() ==> ec.io.Clean()
      ensures old(ec.io.Clean()) && env.Calm() ==> (Now(), resp) == OnRequest(ec.table, old(Now()), req, id)
      ensures Handled(ec.table, old(Now()), Now(), req, id, env, resp)
      ensures req.Command? ==> CommandSettles(old(Now()), Now(), req.command, env, resp)
    {
      ghost var w := Now();
      if req.Command? {
        resp := ProcessDaemonCommand(req.command, id, env);
      } else if IsGetter(req) {
        resp := Answer(req);
        GetterHandled(ec.table, w, req, id, env, resp);
      } else {
        resp := Apply(req, env.stateFree);
        SetterSpec(ec.table, w, ec.Now(), req, id, env.stateFree, resp.Success?);
        SetterHandled(ec.table, w, Now(), req, id, env, resp);
      }
    }
  }

  predicate RequestAllowed(req: IpcRequest) { req.SetFanMode? ==> FanAllowed(req.mode) }

  lemma GetterHandled(t: Table, w: World, req: IpcRequest, id: u64, env: Env, resp: IpcResponse)
    requires IsGetter(req) && (resp == FAILED || resp == OnRequest(t, w, req, 0).1)
    ensures Handled(t, w, w, req, id, env, resp) && OnRequest(t, w, req, id) == OnRequest(t, w, req, 0)
        && OnRequest(t, w, req, id).0 == w
  {
    NothingDone(t, w.ec);
    assert RequestActs(w, req, id) == [];
    assert PartOf(t, w.ec, w.ec, [], resp != FAILED);
  }

  lemma SetterHandled(t: Table, w: World, w': World, req: IpcRequest, id: u64, env: Env, resp: IpcResponse)
    requires !IsGetter(req) && !req.Command? && resp in {Success, FAILED}
    requires Applied(t, w.ec, w'.ec, RequestActs(w, req, 0), env.stateFree && RequestAllowed(req), resp.Success?)
    requires w'.disk == w.disk && w'.worker == w.worker
    requires w'.state == if resp == FAILED then w.state else OnRequest(t, w, req, 0).0.state
    ensures Handled(t, w, w', req, id, env, resp)
  {
    SetterSpec(t, w, w'.ec, req, id, env.stateFree, resp.Success?);
  }

  /** What a setter's writes make of the specification. */
  lemma SetterSpec(t: Table, w: World, after: Ec, req: IpcRequest, id: u64, stateFree: bool, ok: bool)
    requires !IsGetter(req) && !req.Command?
    requires Applied(t, w.ec, after, RequestActs(w, req, 0), stateFree && RequestAllowed(req), ok)
    ensures RequestActs(w, req, id) == RequestActs(w, req, 0) && OnRequest(t, w, req, id) == OnRequest(t, w, req, 0)
    ensures PartOf(t, w.ec, after, RequestActs(w, req, 0), ok)
    ensures ok ==> OnRequest(t, w, req, 0) == (w.(ec := after, state := OnRequest(t, w, req, 0).0.state), Success)
    ensures !RequestAllowed(req) ==> OnRequest(t, w, req, 0) == (w, FAILED) && after == w.ec
  {
    var acts := RequestActs(w, req, 0);
    var whole :| Partly(t, w.ec, after, acts, whole) && (ok <==> whole && stateFree && RequestAllowed(req));
    if ok {
      WholeRun(t, w.ec, after, acts);
    }
    if !RequestAllowed(req) {
      NothingIsAll(t, w.ec, after, whole);
    }
  }

  lemma NothingIsAll(t: Table, e: Ec, after: Ec, ok: bool)
    requires Partly(t, e, after, [], ok)
    ensures after == e
  {
    var none: seq<Act> := [];
    var k: nat :| k <= 0 && after == Do(t, e, none[..k]);
    assert none[..k] == [];
  }

  /** One stage `next` of a longer list `acts`, after the stages `done`. */
  lemma Stage(t: Table, e0: Ec, e1: Ec, e2: Ec, done: seq<Act>, next: seq<Act>, rest: seq<Act>, acts: seq<Act>,
          ok: bool)
    requires acts == done + next + rest && e1 == Do(t, e0, done) && Partly(t, e1, e2, next, ok)
    ensures ok ==> e2 == Do(t, e0, done + next)
    ensures Partly(t, e0, e2, acts, ok && rest == [])
  {
    PartlyAfter(t, e0, e1, e2, done, next, ok);
    if ok {
      WholeRun(t, e0, e2, done + next);
      assert acts[..|done + next|] == done + next;
    } else {
      PartlyBefore(t, e0, e2, done + next, rest);
    }
  }

  lemma Regroup(k: seq<Act>, l: seq<Act>, p: seq<Act>, c: seq<Act>, f: seq<Act>)
    ensures k + l + p + c + f == [] + k + (l + p + c + f) == k + l + (p + c + f) == (k + l) + p + (c + f)
    ensures k + l + p + c + f == (k + l + p + c) + f + []
    ensures [] + k == k
  {
  }

  lemma NothingDone(t: Table, e: Ec)
    ensures Partly(t, e, e, [], true)
  {
    var none: seq<Act> := [];
    assert e == Do(t, e, none[..0]);
  }

  lemma RestoredIsPart(t: Table, before: Ec, after: Ec, s: CurrentSettings, ok: bool)
    requires Restored(t, before, after, s, ok)
    ensures PartOf(t, before, after, RestoreActs(before.ledCustom, s), ok)
  {
  }

  lemma NothingOf(t: Table, e: Ec, acts: seq<Act>)
    ensures PartOf(t, e, e, acts, false)
  {
    assert e == Do(t, e, acts[..0]);
    assert Partly(t, e, e, acts, |acts| == 0);
  }

  /**
   * The rest of start-up. With telemetry on, the chip is identified for the start-up message, and the
   * daemon gives up if that fails - after the settings have been restored.
   */
  method StartDaemon(ec: EcDevice, disk: Option<CurrentSettings>, id: u64, cpu: Text, os: Text, motherboard: Text)
    returns (daemon: Io<Daemon>, sent: Option<TelemetryData>)
    requires ec.Valid() && !ec.ledCustom
    modifies ec, ec.io
    ensures daemon.Done? ==> daemon.value.ec == ec && daemon.value.Valid()
    ensures daemon.Done? ==> BootHandled(ec.table, old(ec.Now()), disk, id, daemon.value.Now(), daemon.value.restored)
    ensures daemon.Failed? ==> Loaded(disk, id).telemetryEnabled && sent == None
                               && PartOf(ec.table, old(ec.Now()), ec.Now(), RestoreActs(false, Loaded(disk, id)), false)
    ensures old(ec.io.Clean()) ==>
              && daemon.Done? && daemon.value.Now() == Start(ec.table, old(ec.Now()), disk, id)
              && sent == (if !Loaded(disk, id).telemetryEnabled then None
                          else var (id1, id2, ver) := ChipIds(ec.table, ec.Now());
                            Some(Startup(FirmwareName(id1, id2, ver), ec.layout.hram, cpu, os, motherboard)))
  {
    var d := new Daemon(ec, disk, id);
    if !d.state.telemetryEnabled {
      return Done(d), None;
    }
    var info := ec.ReadSystemInfo();
    if info.Failed? {
      return Failed, None;
    }
    var (id1, id2, ver) := info.value;
    return Done(d), Some(Startup(FirmwareName(id1, id2, ver), ec.layout.hram, cpu, os, motherboard));
  }
}
