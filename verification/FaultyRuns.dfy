/** Whole runs of the daemon in which any port call may fail. */
module FaultyRuns {
  import opened Bytes
  import opened EcPort
  import opened EcActs
  import opened EcDevice
  import opened EcRegs
  import opened Messages
  import opened Settings
  import opened Daemon
  import opened Coherence
  import opened DaemonRuns

  /**
   * What an input may do under errors; `resp` is the answer, for an event and a restart only whether
   * the hardware operation worked.
   */
  ghost predicate Possible(t: Table, w: World, x: Input, resp: IpcResponse, w': World)
    requires Answerable(x)
  {
    match x
    case Request(req, id) => exists env :: Handled(t, w, w', req, id, env, resp)
    case Event(ev) => exists env :: EventHandled(t, w, w', ev, env, Worked(resp))
    case PeerReset => exists env :: w' == AfterReset(w, env)
    case Restart(mem, id) => BootHandled(t, Ec(mem, false), w.disk, id, w', Worked(resp))
  }

  predicate Worked(resp: IpcResponse) { resp != FAILED }

  const ALL: set<Feature> := {Keyboard, Profile, Charge, Fan(Cpu), Fan(Gpu)}

  function Settle(trust: set<Feature>, f: Feature, resp: IpcResponse): set<Feature> {
    if resp == FAILED then trust - {f} else trust + {f}
  }

  /** The settings that can be relied on after an input: a failure costs exactly the setting that was to be applied. */
  function TrustAfter(trust: set<Feature>, x: Input, resp: IpcResponse): set<Feature> {
    match x
    case Request(SetPowerProfile(_), _) => Settle(trust, Profile, resp)
    case Request(SetKeyboardBacklight(_), _) => Settle(trust, Keyboard, resp)
    case Request(SetChargeLimit(_), _) => Settle(trust, Charge, resp)
    case Request(SetFanMode(fan, mode), _) => if FanAllowed(mode) then Settle(trust, Fan(fan), resp) else trust
    case Request(Command(RestoreDefaults), _) => if resp == FAILED then {} else ALL
    case Request(Command(ApplySettings), _) => if resp == FAILED then trust else ALL
    case Event(SystemWakingUp) => if resp == FAILED then trust else ALL
    case Restart(_, _) => if resp == FAILED then {} else ALL
    case _ => trust
  }

  /** The trusted settings are what the registers say. */
  ghost predicate TrustInv(t: Table, w: World, trust: set<Feature>) {
    && trust <= ALL
    && (forall g :: g in trust ==> Shows(t, w.ec, w.state, g))
    && FansAllowed(w.state) && DiskAllowed(w.disk)
  }

  // ---- Actions that change nothing ----

  /** Whatever `acts` write to `reg`, it is there already. */
  ghost predicate Idle(t: Table, e: Ec, acts: seq<Act>, reg: Reg) {
    forall i :: 0 <= i < |acts| && acts[i].Write? && acts[i].reg == reg ==> acts[i].val == e.At(t, reg)
  }

  lemma {:induction false} IdleKeeps(t: Table, e: Ec, acts: seq<Act>, reg: Reg)
    requires Distinct(t) && Idle(t, e, acts, reg)
    ensures Do(t, e, acts).At(t, reg) == e.At(t, reg)
  {
    if acts != [] {
      var last := acts[|acts| - 1];
      IdleKeeps(t, e, acts[..|acts| - 1], reg);
      if !(last.Write? && last.reg == reg) {
        WriteElsewhere(t, Do(t, e, acts[..|acts| - 1]), last, reg);
      }
    }
  }

  lemma IdleElsewhere(t: Table, e: Ec, acts: seq<Act>, f: Feature, reg: Reg)
    requires Within(acts, f) && Owner(reg) != f
    ensures Idle(t, e, acts, reg)
  {
  }

  /** Applying a setting that is in force already. */
  lemma IdleStage(t: Table, e: Ec, s: CurrentSettings, n: nat, reg: Reg)
    requires n < 6 && n != 1 && Shows(t, e, s, StageFeature(n)) && Owner(reg) == StageFeature(n)
    ensures Idle(t, e, StageActs(e.ledCustom, s, n), reg)
  {
  }

  lemma IdleRestore(t: Table, e: Ec, s: CurrentSettings, g: Feature, reg: Reg)
    requires g in ALL && Shows(t, e, s, g) && Owner(reg) == g
    ensures Idle(t, e, RestoreActs(e.ledCustom, s), reg)
  {
    forall n | 0 <= n < 6
      ensures Idle(t, e, StageActs(e.ledCustom, s, n), reg)
    {
      if StageFeature(n) == g {
        IdleStage(t, e, s, n, reg);
      } else {
        StageStaysWithin(e.ledCustom, s, n);
        IdleElsewhere(t, e, StageActs(e.ledCustom, s, n), StageFeature(n), reg);
      }
    }
    assert Idle(t, e, StageActs(e.ledCustom, s, 0), reg) && Idle(t, e, StageActs(e.ledCustom, s, 1), reg);
    assert Idle(t, e, StageActs(e.ledCustom, s, 2), reg) && Idle(t, e, StageActs(e.ledCustom, s, 3), reg);
    assert Idle(t, e, StageActs(e.ledCustom, s, 4), reg) && Idle(t, e, StageActs(e.ledCustom, s, 5), reg);
  }

  /** Restoring a setting that is in force already leaves it in force, wherever it stops. */
  lemma PartOfRestoreKeeps(t: Table, e: Ec, e': Ec, s: CurrentSettings, g: Feature, ok: bool)
    requires Distinct(t) && PartOf(t, e, e', RestoreActs(e.ledCustom, s), ok) && g in ALL && Shows(t, e, s, g)
    ensures Shows(t, e', s, g)
  {
    var acts := RestoreActs(e.ledCustom, s);
    var whole :| Partly(t, e, e', acts, whole);
    var k: nat :| k <= |acts| && e' == Do(t, e, acts[..k]);
    forall reg | Owner(reg) == g
      ensures e.At(t, reg) == e'.At(t, reg)
    {
      IdleRestore(t, e, s, g, reg);
      IdleKeeps(t, e, acts[..k], reg);
    }
    SameRegsShowTheSame(t, e, e', s, g);
  }

  /** Part of an operation on another setting. */
  lemma PartElsewhere(t: Table, e: Ec, e': Ec, acts: seq<Act>, f: Feature, ok: bool, s: CurrentSettings, g: Feature)
    requires Distinct(t) && Within(acts, f) && PartOf(t, e, e', acts, ok) && g != f
    ensures Shows(t, e', s, g) <==> Shows(t, e, s, g)
  {
    var whole :| Partly(t, e, e', acts, whole);
    var k: nat :| k <= |acts| && e' == Do(t, e, acts[..k]);
    OtherRegsStay(t, e, acts[..k], f, g);
    SameRegsShowTheSame(t, e, e', s, g);
  }

  lemma WholeOf(t: Table, e: Ec, e': Ec, acts: seq<Act>)
    requires PartOf(t, e, e', acts, true)
    ensures e' == Do(t, e, acts)
  {
    WholeRun(t, e, e', acts);
  }

  // ---- One input ----

  /** A setter: what it must establish on success, and what it cannot touch. */
  lemma SetterKeepsTrust(t: Table, w: World, w': World, acts: seq<Act>, f: Feature, resp: IpcResponse,
          trust: set<Feature>)
    requires Distinct(t) && TrustInv(t, w, trust) && Within(acts, f) && f in ALL
    requires PartOf(t, w.ec, w'.ec, acts, resp != FAILED) && FansAllowed(w'.state) && w'.disk == w.disk
    requires SameBut(w.state, w'.state, f) && (resp != FAILED ==> Shows(t, Do(t, w.ec, acts), w'.state, f))
    ensures TrustInv(t, w', Settle(trust, f, resp))
  {
    if resp != FAILED {
      WholeOf(t, w.ec, w'.ec, acts);
    }
    forall g | g in trust && g != f
      ensures Shows(t, w'.ec, w'.state, g)
    {
      PartElsewhere(t, w.ec, w'.ec, acts, f, resp != FAILED, w.state, g);
      assert Shows(t, w.ec, w.state, g);
      OtherSettingsShow(t, w'.ec, w.state, w'.state, f, g);
    }
  }

  lemma ProfileRequest(t: Table, w: World, p: PowerProfile, env: Env, resp: IpcResponse, w': World, trust: set<Feature>)
    requires Distinct(t) && TrustInv(t, w, trust) && Handled(t, w, w', SetPowerProfile(p), 0, env, resp)
    ensures TrustInv(t, w', Settle(trust, Profile, resp))
  {
    ProfileEstablished(t, w.ec, p);
    SetterKeepsTrust(t, w, w', ProfileActs(p), Profile, resp, trust);
  }

  lemma KeyboardRequest(t: Table, w: World, k: KeyboardLevel, env: Env, resp: IpcResponse, w': World,
          trust: set<Feature>)
    requires Distinct(t) && TrustInv(t, w, trust) && Handled(t, w, w', SetKeyboardBacklight(k), 0, env, resp)
    ensures TrustInv(t, w', Settle(trust, Keyboard, resp))
  {
    KeyboardHandled(t, w, k, env, resp, w');
    KeyboardStaysWithin(k);
    KeyboardEstablished(t, w.ec, k);
    SetterKeepsTrust(t, w, w', KeyboardActs(k), Keyboard, resp, trust);
  }

  lemma KeyboardHandled(t: Table, w: World, k: KeyboardLevel, env: Env, resp: IpcResponse, w': World)
    requires Handled(t, w, w', SetKeyboardBacklight(k), 0, env, resp)
    ensures PartOf(t, w.ec, w'.ec, KeyboardActs(k), resp != FAILED) && w'.disk == w.disk
    ensures w'.state == if resp == FAILED then w.state else w.state.(keyboardBacklight := k)
  {
  }

  lemma ChargeRequest(t: Table, w: World, c: ChargeLimit, env: Env, resp: IpcResponse, w': World, trust: set<Feature>)
    requires Distinct(t) && TrustInv(t, w, trust) && Handled(t, w, w', SetChargeLimit(c), 0, env, resp)
    ensures TrustInv(t, w', Settle(trust, Charge, resp))
  {
    ChargeEstablished(t, w.ec, c);
    SetterKeepsTrust(t, w, w', ChargeActs(c), Charge, resp, trust);
  }

  lemma FanRequest(t: Table, w: World, fan: FanIndex, mode: FanMode, env: Env, resp: IpcResponse, w': World,
          trust: set<Feature>)
    requires Distinct(t) && TrustInv(t, w, trust) && Handled(t, w, w', SetFanMode(fan, mode), 0, env, resp)
        && FanAllowed(mode)
    ensures TrustInv(t, w', Settle(trust, Fan(fan), resp))
  {
    FanEstablished(t, w.ec, fan, mode);
    assert w'.state == if resp == FAILED then w.state else WithFan(w.state, fan, mode);
    SetterKeepsTrust(t, w, w', FanActs(fan, mode), Fan(fan), resp, trust);
  }

  lemma SetterRequest(t: Table, w: World, req: IpcRequest, id: u64, env: Env, resp: IpcResponse, w': World,
          trust: set<Feature>)
    requires Distinct(t) && TrustInv(t, w, trust) && Served(req) && Handled(t, w, w', req, id, env, resp)
    requires req.SetPowerProfile? || req.SetKeyboardBacklight? || req.SetChargeLimit?
        || (req.SetFanMode? && FanAllowed(req.mode))
    ensures TrustInv(t, w', TrustAfter(trust, Request(req, id), resp))
  {
    match req {
      case SetPowerProfile(p) => ProfileRequest(t, w, p, env, resp, w', trust);
      case SetKeyboardBacklight(k) => KeyboardRequest(t, w, k, env, resp, w', trust);
      case SetChargeLimit(c) => ChargeRequest(t, w, c, env, resp, w', trust);
      case SetFanMode(fan, mode) => FanRequest(t, w, fan, mode, env, resp, w', trust);
    }
  }

  lemma AllRestored(t: Table, e: Ec, w: World)
    requires Distinct(t) && FansAllowed(w.state) && DiskAllowed(w.disk) && w.ec == Restore(t, e, w.state)
    ensures TrustInv(t, w, ALL)
  {
    RestoreEstablishes(t, e, w.state);
  }

  lemma RestoreKeepsTrust(t: Table, w: World, w': World, ok: bool, trust: set<Feature>)
    requires Distinct(t) && TrustInv(t, w, trust) && PartOf(t, w.ec, w'.ec, RestoreActs(w.ec.ledCustom, w.state), ok)
    requires w'.state == w.state && w'.disk == w.disk
    ensures TrustInv(t, w', if ok then ALL else trust)
  {
    if ok {
      WholeOf(t, w.ec, w'.ec, RestoreActs(w.ec.ledCustom, w.state));
      AllRestored(t, w.ec, w');
    } else {
      forall g | g in trust
        ensures Shows(t, w'.ec, w'.state, g)
      {
        PartOfRestoreKeeps(t, w.ec, w'.ec, w.state, g, ok);
      }
    }
  }

  lemma SameEcKeepsTrust(t: Table, w: World, w': World, trust: set<Feature>)
    requires TrustInv(t, w, trust) && w'.ec == w.ec
        && w'.state == w.state.(telemetryEnabled := w'.state.telemetryEnabled)
    requires DiskAllowed(w'.disk)
    ensures TrustInv(t, w', trust)
  {
    forall g | g in trust
      ensures Shows(t, w'.ec, w'.state, g)
    {
      assert Shows(t, w.ec, w.state, g);
    }
  }

  lemma DefaultsRequest(t: Table, w: World, id: u64, env: Env, resp: IpcResponse, w': World, trust: set<Feature>)
    requires Distinct(t) && TrustInv(t, w, trust) && Handled(t, w, w', Command(RestoreDefaults), id, env, resp)
    ensures TrustInv(t, w', if resp == FAILED then {} else ALL)
  {
    if resp != FAILED {
      WholeOf(t, w.ec, w'.ec, RestoreActs(w.ec.ledCustom, DefaultSettings(id)));
      AllRestored(t, w.ec, w');
    }
  }

  /** Requests that write no register. */
  lemma QuietRequest(t: Table, w: World, req: IpcRequest, id: u64, env: Env, resp: IpcResponse, w': World,
          trust: set<Feature>)
    requires TrustInv(t, w, trust) && Served(req) && Handled(t, w, w', req, id, env, resp)
    requires IsGetter(req) || (req.SetFanMode? && !FanAllowed(req.mode)) || (req.Command? && IsQuiet(req.command))
    ensures TrustInv(t, w', trust)
  {
    var whole :| Partly(t, w.ec, w'.ec, [], whole);
    NothingIsAll(t, w.ec, w'.ec, whole);
    SameEcKeepsTrust(t, w, w', trust);
  }

  predicate IsQuiet(c: DaemonCommand) { c.ActivateTelemetry? || c.GetSettings? || c.GetTelemetryId? }

  lemma OtherRequest(t: Table, w: World, req: IpcRequest, id: u64, env: Env, resp: IpcResponse, w': World,
          trust: set<Feature>)
    requires Distinct(t) && TrustInv(t, w, trust) && Served(req) && Handled(t, w, w', req, id, env, resp)
    requires !(req.SetPowerProfile? || req.SetKeyboardBacklight? || req.SetChargeLimit?
        || (req.SetFanMode? && FanAllowed(req.mode)))
    ensures TrustInv(t, w', TrustAfter(trust, Request(req, id), resp))
  {
    match req {
      case SetLedMode(m) => LedKeepsTrust(t, w, w', m, resp != FAILED, trust);
      case Command(RestoreDefaults) => DefaultsRequest(t, w, id, env, resp, w', trust);
      case Command(ApplySettings) => RestoreKeepsTrust(t, w, w', resp != FAILED, trust);
      case _ => QuietRequest(t, w, req, id, env, resp, w', trust);
    }
  }

  /** Part of an operation on something that is never trusted. */
  lemma ElsewhereKeepsTrust(t: Table, w: World, w': World, acts: seq<Act>, f: Feature, ok: bool, trust: set<Feature>)
    requires Distinct(t) && TrustInv(t, w, trust) && Within(acts, f) && f !in ALL && PartOf(t, w.ec, w'.ec, acts, ok)
    requires SameBut(w.state, w'.state, f) && w'.disk == w.disk
    ensures TrustInv(t, w', trust)
  {
    forall g | g in trust
      ensures Shows(t, w'.ec, w'.state, g)
    {
      PartElsewhere(t, w.ec, w'.ec, acts, f, ok, w.state, g);
      OtherSettingsShow(t, w'.ec, w.state, w'.state, f, g);
      assert Shows(t, w.ec, w.state, g);
    }
  }

  lemma LedKeepsTrust(t: Table, w: World, w': World, mode: PowerLedMode, ok: bool, trust: set<Feature>)
    requires Distinct(t) && TrustInv(t, w, trust) && PartOf(t, w.ec, w'.ec, LedActs(w.ec.ledCustom, mode), ok)
    requires w'.state == w.state.(ledMode := w'.state.ledMode) && w'.disk == w.disk
    ensures TrustInv(t, w', trust)
  {
    LedStaysWithin(w.ec.ledCustom, mode);
    ElsewhereKeepsTrust(t, w, w', LedActs(w.ec.ledCustom, mode), Led, ok, trust);
  }

  /** Reading back cannot change a trusted setting. */
  lemma RereadKeeps(t: Table, e: Ec, s: CurrentSettings, s': CurrentSettings, g: Feature)
    requires g in ALL && Shows(t, e, s, g) && Reread(t, e, s, s')
    ensures Shows(t, e, s', g)
  {
    if g == Charge {
      FromPredefinedInverts(ChargeOf(t, e).0, ChargeOf(t, e).1, s.chargeLimit);
    }
  }

  lemma ChargerKeepsTrust(t: Table, w: World, orange: bool, white: bool, w': World, trust: set<Feature>)
    requires Distinct(t) && TrustInv(t, w, trust) && w' == w.(ec := BatteryLeds(t, w.ec, orange, white))
    ensures TrustInv(t, w', trust)
  {
    var acts := [Write(PortA, BatteryByte(w.ec.At(t, PortA), orange, white))];
    assert acts[..0] == [] && acts[..1] == acts && w'.ec == Do(t, w.ec, acts);
    assert Partly(t, w.ec, w'.ec, acts, true);
    ElsewhereKeepsTrust(t, w, w', acts, Other, true, trust);
  }

  lemma OverrideKeepsTrust(t: Table, w: World, mode: PowerLedMode, ok: bool, w': World, trust: set<Feature>)
    requires Distinct(t) && TrustInv(t, w, trust) && PartOf(t, w.ec, w'.ec, LedActs(w.ec.ledCustom, mode), ok)
    requires w'.state == w.state || Reread(t, w'.ec, w.state, w'.state)
    requires w'.disk == w.disk || w'.disk == None || w'.disk == Some(w'.state)
    ensures TrustInv(t, w', trust)
  {
    LedKeepsTrust(t, w, w'.(state := w.state, disk := w.disk), mode, ok, trust);
    forall g | g in trust && w'.state != w.state
      ensures Shows(t, w'.ec, w'.state, g)
    {
      RereadKeeps(t, w'.ec, w.state, w'.state, g);
    }
  }

  lemma EventKeepsTrust(t: Table, w: World, ev: InternalEvent, env: Env, ok: bool, w': World, trust: set<Feature>)
    requires Distinct(t) && TrustInv(t, w, trust) && EventHandled(t, w, w', ev, env, ok)
    ensures TrustInv(t, w', if ev.SystemWakingUp? && ok then ALL else trust)
  {
    match ev {
      case SystemWakingUp => RestoreKeepsTrust(t, w, w', ok, trust);
      case ChargerConnected | ChargerDisconnected =>
        if w'.ec != w.ec {
          var orange, white := ChargerShows(t, w, ev);
          ChargerKeepsTrust(t, w, orange, white, w', trust);
        }
      case SystemSleeping => OverrideKeepsTrust(t, w, Animation(SLEEP_BREATH), ok, w', trust);
      case _ => OverrideKeepsTrust(t, w, PowerLedMode.Auto, ok, w', trust);
    }
  }

  lemma RestartKeepsTrust(t: Table, w: World, mem: Memory, id: u64, ok: bool, w': World)
    requires Distinct(t) && DiskAllowed(w.disk) && BootHandled(t, Ec(mem, false), w.disk, id, w', ok)
    ensures TrustInv(t, w', if ok then ALL else {})
  {
    if ok {
      WholeOf(t, Ec(mem, false), w'.ec, RestoreActs(false, w'.state));
      AllRestored(t, Ec(mem, false), w');
    }
  }

  lemma RequestKeepsTrust(t: Table, w: World, req: IpcRequest, id: u64, env: Env, resp: IpcResponse, w': World,
          trust: set<Feature>)
    requires Distinct(t) && TrustInv(t, w, trust) && Served(req) && Handled(t, w, w', req, id, env, resp)
    ensures TrustInv(t, w', TrustAfter(trust, Request(req, id), resp))
  {
    if req.SetPowerProfile? || req.SetKeyboardBacklight? || req.SetChargeLimit?
        || (req.SetFanMode? && FanAllowed(req.mode)) {
      SetterRequest(t, w, req, id, env, resp, w', trust);
    } else {
      OtherRequest(t, w, req, id, env, resp, w', trust);
    }
  }

  lemma StepKeepsTrust(t: Table, w: World, x: Input, resp: IpcResponse, w': World, trust: set<Feature>)
    requires Distinct(t) && TrustInv(t, w, trust) && Answerable(x) && Possible(t, w, x, resp, w')
    ensures TrustInv(t, w', TrustAfter(trust, x, resp))
  {
    match x {
      case Request(req, id) =>
        var env :| Handled(t, w, w', req, id, env, resp);
        RequestKeepsTrust(t, w, req, id, env, resp, w', trust);
      case Event(ev) =>
        var env :| EventHandled(t, w, w', ev, env, Worked(resp));
        EventKeepsTrust(t, w, ev, env, resp != FAILED, w', trust);
      case PeerReset => SameEcKeepsTrust(t, w, w', trust);
      case Restart(mem, id) => RestartKeepsTrust(t, w, mem, id, Worked(resp), w');
    }
  }

  // ---- Runs ----

  /** A run: the worlds before and after each input. */
  ghost predicate Trace(t: Table, ws: seq<World>, xs: seq<Input>, resps: seq<IpcResponse>) {
    && |ws| == |xs| + 1 && |resps| == |xs| && AllServed(xs)
    && forall i :: 0 <= i < |xs| ==> Possible(t, ws[i], xs[i], resps[i], ws[i + 1])
  }

  function Trust(xs: seq<Input>, resps: seq<IpcResponse>): set<Feature>
    requires |resps| == |xs|
  {
    if xs == [] then {} else TrustAfter(Trust(xs[..|xs| - 1], resps[..|xs| - 1]), xs[|xs| - 1], resps[|xs| - 1])
  }

  lemma TraceBefore(t: Table, ws: seq<World>, xs: seq<Input>, resps: seq<IpcResponse>)
    requires Trace(t, ws, xs, resps) && xs != []
    ensures Trace(t, ws[..|xs|], xs[..|xs| - 1], resps[..|xs| - 1])
    ensures Answerable(xs[|xs| - 1]) && Possible(t, ws[|xs| - 1], xs[|xs| - 1], resps[|xs| - 1], ws[|xs|])
  {
  }

  /**
   * Main result. Whatever port calls fail in a run, a failure costs at most the setting that was being
   * applied: every setting whose last application succeeded - on its own, or with all others when the
   * machine woke up or the daemon started - is what the registers say, through failed requests for
   * other settings, failed events and failed restorations alike.
   */
  lemma {:induction false} FailuresStayLocal(t: Table, ws: seq<World>, xs: seq<Input>, resps: seq<IpcResponse>)
    requires Distinct(t) && Trace(t, ws, xs, resps) && FansAllowed(ws[0].state) && DiskAllowed(ws[0].disk)
    ensures TrustInv(t, ws[|xs|], Trust(xs, resps))
  {
    if xs != [] {
      var n := |xs| - 1;
      TraceBefore(t, ws, xs, resps);
      FailuresStayLocal(t, ws[..|xs|], xs[..n], resps[..n]);
      StepKeepsTrust(t, ws[n], xs[n], resps[n], ws[n + 1], Trust(xs[..n], resps[..n]));
    }
  }

  // ---- What is relied on, in closed form ----

  /** The input applied `f` and succeeded, on its own or with all other settings. */
  predicate Gains(x: Input, resp: IpcResponse, f: Feature) {
    && resp != FAILED
    && (match x
        case Request(SetPowerProfile(_), _) => f == Profile
        case Request(SetKeyboardBacklight(_), _) => f == Keyboard
        case Request(SetChargeLimit(_), _) => f == Charge
        case Request(SetFanMode(fan, mode), _) => f == Fan(fan) && FanAllowed(mode)
        case Request(Command(c), _) => c.RestoreDefaults? || c.ApplySettings?
        case Event(ev) => ev.SystemWakingUp?
        case Restart(_, _) => true
        case _ => false)
  }

  /** The input tried to apply another value of `f` and failed. */
  predicate Spoils(x: Input, resp: IpcResponse, f: Feature) {
    && resp == FAILED
    && (match x
        case Request(SetPowerProfile(_), _) => f == Profile
        case Request(SetKeyboardBacklight(_), _) => f == Keyboard
        case Request(SetChargeLimit(_), _) => f == Charge
        case Request(SetFanMode(fan, mode), _) => f == Fan(fan) && FanAllowed(mode)
        case Request(Command(c), _) => c.RestoreDefaults?
        case Restart(_, _) => true
        case _ => false)
  }

  lemma TrustStep(trust: set<Feature>, x: Input, resp: IpcResponse, f: Feature)
    requires f in ALL
    ensures f in TrustAfter(trust, x, resp) <==> Gains(x, resp, f) || (f in trust && !Spoils(x, resp, f))
  {
  }

  /** The input at `i` applied `f`, and nothing since spoiled it. */
  ghost predicate LastGained(xs: seq<Input>, resps: seq<IpcResponse>, f: Feature, i: nat)
    requires |resps| == |xs|
  {
    i < |xs| && Gains(xs[i], resps[i], f) && forall j :: i < j < |xs| ==> !Spoils(xs[j], resps[j], f)
  }

  /** A setting is relied on exactly if its last application, as far as it failed or succeeded, succeeded. */
  lemma {:induction false} TrustIff(xs: seq<Input>, resps: seq<IpcResponse>, f: Feature)
    requires |resps| == |xs| && f in ALL
    ensures f in Trust(xs, resps) <==> exists i: nat :: LastGained(xs, resps, f, i)
  {
    if xs != [] {
      var n := |xs| - 1;
      TrustIff(xs[..n], resps[..n], f);
      TrustStep(Trust(xs[..n], resps[..n]), xs[n], resps[n], f);
      if i: nat :| LastGained(xs[..n], resps[..n], f, i) {
        assert !Spoils(xs[n], resps[n], f) ==> LastGained(xs, resps, f, i);
      }
      if i: nat :| LastGained(xs, resps, f, i) {
        assert i < n ==> LastGained(xs[..n], resps[..n], f, i);
      }
      assert Gains(xs[n], resps[n], f) ==> LastGained(xs, resps, f, n);
    }
  }

  // ---- Fan duties ----

  /** No fan duty over the limit is written. */
  ghost predicate Bounded(acts: seq<Act>) {
    forall i :: 0 <= i < |acts| && acts[i].Write? && acts[i].reg.Duty? ==> acts[i].val <= MAX_DUTY
  }

  ghost predicate DutiesOk(t: Table, e: Ec) { e.At(t, Duty(Cpu)) <= MAX_DUTY && e.At(t, Duty(Gpu)) <= MAX_DUTY }

  lemma {:induction false} BoundedKeeps(t: Table, e: Ec, acts: seq<Act>)
    requires Distinct(t) && Bounded(acts) && DutiesOk(t, e)
    ensures DutiesOk(t, Do(t, e, acts))
  {
    if acts != [] {
      var last, mid := acts[|acts| - 1], Do(t, e, acts[..|acts| - 1]);
      BoundedKeeps(t, e, acts[..|acts| - 1]);
      assert last.Write? && last.reg.Duty? ==> last.val <= MAX_DUTY;
      forall fan: FanIndex
        ensures DoAct(t, mid, last).At(t, Duty(fan)) <= MAX_DUTY
      {
        assert fan == Cpu || fan == Gpu;
        if !(last.Write? && last.reg == Duty(fan)) {
          WriteElsewhere(t, mid, last, Duty(fan));
        }
      }
    }
  }

  lemma PartKeepsDuties(t: Table, e: Ec, e': Ec, acts: seq<Act>, ok: bool)
    requires Distinct(t) && Bounded(acts) && DutiesOk(t, e) && PartOf(t, e, e', acts, ok)
    ensures DutiesOk(t, e')
  {
    var whole :| Partly(t, e, e', acts, whole);
    var k: nat :| k <= |acts| && e' == Do(t, e, acts[..k]);
    BoundedKeeps(t, e, acts[..k]);
  }

  lemma RestoreIsBounded(flag: bool, s: CurrentSettings)
    ensures Bounded(RestoreActs(flag, s))
  {
    StageStaysWithin(flag, s, 0);
    StageStaysWithin(flag, s, 1);
    assert Bounded(StageActs(flag, s, 0)) && Bounded(StageActs(flag, s, 1));
    assert Bounded(StageActs(flag, s, 2)) && Bounded(StageActs(flag, s, 3));
    assert Bounded(FanRestoreActs(s));
  }

  lemma RequestIsBounded(w: World, req: IpcRequest, id: u64)
    ensures Bounded(RequestActs(w, req, id))
  {
    match req {
      case SetLedMode(m) => OperationsStayWithin(Off, w.ec.ledCustom, m, Silent, Balanced, Cpu, FanMode.Auto);
      case Command(RestoreDefaults) => RestoreIsBounded(w.ec.ledCustom, DefaultSettings(id));
      case Command(ApplySettings) => RestoreIsBounded(w.ec.ledCustom, w.state);
      case _ =>
    }
  }

  lemma EventIsBounded(w: World, ev: InternalEvent)
    ensures Bounded(EventActs(w, ev))
  {
    OperationsStayWithin(Off, w.ec.ledCustom, PowerLedMode.Auto, Silent, Balanced, Cpu, FanMode.Auto);
    OperationsStayWithin(Off, w.ec.ledCustom, Animation(SLEEP_BREATH), Silent, Balanced, Cpu, FanMode.Auto);
    RestoreIsBounded(w.ec.ledCustom, w.state);
  }

  lemma StepKeepsDuties(t: Table, w: World, x: Input, resp: IpcResponse, w': World)
    requires Distinct(t) && DutiesOk(t, w.ec) && Answerable(x) && Possible(t, w, x, resp, w')
    requires x.Restart? ==> DutiesOk(t, Ec(x.mem, false))
    ensures DutiesOk(t, w'.ec)
  {
    match x {
      case Request(req, id) =>
        var env :| Handled(t, w, w', req, id, env, resp);
        RequestIsBounded(w, req, id);
        PartKeepsDuties(t, w.ec, w'.ec, RequestActs(w, req, id), resp != FAILED);
      case Event(ev) =>
        var env :| EventHandled(t, w, w', ev, env, Worked(resp));
        if ev.ChargerConnected? || ev.ChargerDisconnected? {
          if w'.ec != w.ec {
            var orange, white := ChargerShows(t, w, ev);
            assert w'.ec == DoAct(t, w.ec, Write(PortA, BatteryByte(w.ec.At(t, PortA), orange, white)));
            assert t(PortA) != t(Duty(Cpu)) && t(PortA) != t(Duty(Gpu));
          }
        } else {
          EventIsBounded(w, ev);
          PartKeepsDuties(t, w.ec, w'.ec, EventActs(w, ev), resp != FAILED);
        }
      case PeerReset =>
      case Restart(mem, id) =>
        RestoreIsBounded(false, w'.state);
        PartKeepsDuties(t, Ec(mem, false), w'.ec, RestoreActs(false, w'.state), false);
    }
  }

  /** Whatever fails, and whatever duties the saved file claims: no run raises a fan duty over the limit. */
  lemma {:induction false} DutiesStayBounded(t: Table, ws: seq<World>, xs: seq<Input>, resps: seq<IpcResponse>)
    requires Distinct(t) && Trace(t, ws, xs, resps) && DutiesOk(t, ws[0].ec)
    requires forall i :: 0 <= i < |xs| && xs[i].Restart? ==> DutiesOk(t, Ec(xs[i].mem, false))
    ensures DutiesOk(t, ws[|xs|].ec)
  {
    if xs != [] {
      var n := |xs| - 1;
      TraceBefore(t, ws, xs, resps);
      DutiesStayBounded(t, ws[..|xs|], xs[..n], resps[..n]);
      StepKeepsDuties(t, ws[n], xs[n], resps[n], ws[n + 1]);
    }
  }
}
