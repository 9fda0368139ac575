/** The power LED over whole runs in which any port call may fail. */
module FaultyLed {
  import opened Bytes
  import opened EcPort
  import opened EcActs
  import opened EcRegs
  import opened Messages
  import opened Settings
  import opened Daemon
  import opened Coherence
  import opened DaemonRuns
  import opened FaultyRuns

  // ---- Applying a mode, perhaps only partly ----

  ghost predicate NoLed(acts: seq<Act>) {
    forall i :: 0 <= i < |acts| ==> acts[i].Write? && Owner(acts[i].reg) != Led
  }

  /** The LED's registers and the flag are the same. */
  ghost predicate SameLed(t: Table, e: Ec, e': Ec) { SameRegs(t, e, e', Led) && e'.ledCustom == e.ledCustom }

  lemma NoLedKeeps(t: Table, e: Ec, acts: seq<Act>)
    requires Distinct(t) && NoLed(acts)
    ensures SameLed(t, e, Do(t, e, acts))
  {
    FlagUntouched(t, e, acts);
    forall reg | Owner(reg) == Led
      ensures e.At(t, reg) == Do(t, e, acts).At(t, reg)
    {
      Untouched(t, e, acts, reg);
    }
  }

  lemma SameLedMeans(t: Table, e: Ec, e': Ec, mode: PowerLedMode)
    requires SameLed(t, e, e')
    ensures (LedShows(t, e', mode) <==> LedShows(t, e, mode)) && (FlagSound(t, e') <==> FlagSound(t, e))
  {
    SameLedShown(t, e, e', mode);
    assert Owner(Bypass) == Owner(A0Mux) == Led;
  }

  /**
   * What an attempt to apply `mode` leaves: the flag stays sound unless an automatic mode may have
   * failed with the flag set, and a success shows the mode exactly as the flag allowed.
   */
  ghost predicate Attempted(t: Table, e: Ec, e': Ec, mode: PowerLedMode, ok: bool) {
    && (FlagSound(t, e) && !(mode.Auto? && e.ledCustom) ==> FlagSound(t, e'))
    && (ok && (mode.Auto? || FlagSound(t, e)) ==> LedShows(t, e', mode) && FlagSound(t, e'))
  }

  lemma CutLedActs(t: Table, e: Ec, mode: PowerLedMode, k: nat)
    requires Distinct(t) && k <= |LedActs(e.ledCustom, mode)|
    ensures Attempted(t, e, Do(t, e, LedActs(e.ledCustom, mode)[..k]), mode, k == |LedActs(e.ledCustom, mode)|)
  {
    var acts := LedActs(e.ledCustom, mode);
    if FlagSound(t, e) {
      FlagSoundUnderFaultsIff(t, e, mode, k);
    }
    if k == |acts| {
      assert acts[..k] == acts;
      LedAppliesIff(t, e, mode);
    }
  }

  lemma PartOfLed(t: Table, e: Ec, e': Ec, mode: PowerLedMode, ok: bool)
    requires Distinct(t) && PartOf(t, e, e', LedActs(e.ledCustom, mode), ok)
    ensures Attempted(t, e, e', mode, ok)
  {
    var whole :| Partly(t, e, e', LedActs(e.ledCustom, mode), whole) && (ok ==> whole);
    var k: nat :| k <= |LedActs(e.ledCustom, mode)| && e' == Do(t, e, LedActs(e.ledCustom, mode)[..k])
                  && (whole <==> k == |LedActs(e.ledCustom, mode)|);
    CutLedActs(t, e, mode, k);
  }

  /** Nothing before or after the attempt touches the LED. */
  lemma AttemptedBetween(t: Table, e0: Ec, e1: Ec, e2: Ec, e3: Ec, mode: PowerLedMode, ok: bool)
    requires SameLed(t, e0, e1) && Attempted(t, e1, e2, mode, ok) && SameLed(t, e2, e3)
    ensures Attempted(t, e0, e3, mode, ok)
  {
    SameLedMeans(t, e0, e1, mode);
    SameLedMeans(t, e2, e3, mode);
  }

  lemma NothingAttempted(t: Table, e: Ec, e': Ec, mode: PowerLedMode)
    requires SameLed(t, e, e')
    ensures Attempted(t, e, e', mode, false)
  {
    SameLedMeans(t, e, e', mode);
  }

  lemma Cut<T>(k: seq<T>, l: seq<T>, r: seq<T>, n: nat)
    requires n <= |k| + |l| + |r|
    ensures n <= |k| ==> (k + (l + r))[..n] == k[..n]
    ensures |k| <= n <= |k| + |l| ==> (k + (l + r))[..n] == k + l[..n - |k|]
    ensures |k| + |l| <= n ==> (k + (l + r))[..n] == k + (l + r[..n - |k| - |l|])
  {
  }

  lemma CutInside(t: Table, e: Ec, k: seq<Act>, mode: PowerLedMode, j: nat)
    requires Distinct(t) && NoLed(k) && j <= |LedActs(e.ledCustom, mode)|
    ensures var l := LedActs(e.ledCustom, mode); Attempted(t, e, Do(t, e, k + l[..j]), mode, j == |l|)
  {
    var l, e1 := LedActs(e.ledCustom, mode), Do(t, e, k);
    DoAppend(t, e, k, l[..j]);
    NoLedKeeps(t, e, k);
    CutLedActs(t, e1, mode, j);
    AttemptedBetween(t, e, e1, Do(t, e1, l[..j]), Do(t, e1, l[..j]), mode, j == |l|);
  }

  lemma CutBehind(t: Table, e: Ec, k: seq<Act>, mode: PowerLedMode, r: seq<Act>)
    requires Distinct(t) && NoLed(k) && NoLed(r)
    ensures Attempted(t, e, Do(t, e, k + (LedActs(e.ledCustom, mode) + r)), mode, true)
  {
    var l := LedActs(e.ledCustom, mode);
    CutInside(t, e, k, mode, |l|);
    assert l[..|l|] == l;
    Associate(k, l, r);
    DoAppend(t, e, k + l, r);
    NoLedKeeps(t, Do(t, e, k + l), r);
    AttemptedBetween(t, e, e, Do(t, e, k + l), Do(t, Do(t, e, k + l), r), mode, true);
  }

  /** A list `k` of writes elsewhere, the LED's writes, and a list `r` of writes elsewhere, cut after `n`. */
  lemma CutAround(t: Table, e: Ec, k: seq<Act>, mode: PowerLedMode, r: seq<Act>, n: nat)
    requires Distinct(t) && NoLed(k) && NoLed(r) && n <= |k| + |LedActs(e.ledCustom, mode)| + |r|
    ensures var l := LedActs(e.ledCustom, mode);
            Attempted(t, e, Do(t, e, (k + (l + r))[..n]), mode, n >= |k| + |l|)
  {
    var l := LedActs(e.ledCustom, mode);
    Cut(k, l, r, n);
    if n < |k| {
      NoLedKeeps(t, e, k[..n]);
      NothingAttempted(t, e, Do(t, e, k[..n]), mode);
    } else if n < |k| + |l| {
      CutInside(t, e, k, mode, n - |k|);
    } else {
      CutBehind(t, e, k, mode, r[..n - |k| - |l|]);
    }
  }

  lemma RestoreHasNoLed(s: CurrentSettings)
    ensures NoLed(KeyboardActs(s.keyboardBacklight)) && NoLed(RestAfterLed(s))
  {
    assert NoLed(ProfileActs(s.powerProfile) + ChargeActs(s.chargeLimit));
    assert NoLed(FanRestoreActs(s));
  }

  lemma PartOfRestoreLed(t: Table, e: Ec, e': Ec, s: CurrentSettings, ok: bool)
    requires Distinct(t) && PartOf(t, e, e', RestoreActs(e.ledCustom, s), ok)
    ensures Attempted(t, e, e', s.ledMode, ok)
  {
    var acts := RestoreActs(e.ledCustom, s);
    var k, l, r := KeyboardActs(s.keyboardBacklight), LedActs(e.ledCustom, s.ledMode), RestAfterLed(s);
    Regroup(k, l, ProfileActs(s.powerProfile), ChargeActs(s.chargeLimit), FanRestoreActs(s));
    Associate(k, l, r);
    assert acts == k + (l + r);
    var whole :| Partly(t, e, e', acts, whole) && (ok ==> whole);
    var n: nat :| n <= |acts| && e' == Do(t, e, acts[..n]) && (whole <==> n == |acts|);
    RestoreHasNoLed(s);
    CutAround(t, e, k, s.ledMode, r, n);
  }

  lemma PartOfElsewhere(t: Table, e: Ec, e': Ec, acts: seq<Act>, ok: bool)
    requires Distinct(t) && NoLed(acts) && PartOf(t, e, e', acts, ok)
    ensures SameLed(t, e, e')
  {
    var whole :| Partly(t, e, e', acts, whole);
    var k: nat :| k <= |acts| && e' == Do(t, e, acts[..k]);
    NoLedKeeps(t, e, acts[..k]);
  }

  // ---- Keeping track ----

  /** The mode the LED registers are known to show, if any, and whether the flag is known to be sound. */
  datatype LedTrack = LedTrack(shown: Option<PowerLedMode>, sound: bool)

  ghost predicate LedInv(t: Table, e: Ec, l: LedTrack) {
    (l.shown.Some? ==> LedShows(t, e, l.shown.value)) && (l.sound ==> FlagSound(t, e))
  }

  function Track(l: LedTrack, flag: bool, mode: PowerLedMode, ok: bool): LedTrack {
    if ok then LedTrack(if mode.Auto? || l.sound then Some(mode) else None, mode.Auto? || l.sound)
    else LedTrack(None, l.sound && !(mode.Auto? && flag))
  }

  /** The mode that an input tries to apply. */
  function TriedMode(w: World, x: Input): Option<PowerLedMode> {
    match x
    case Request(SetLedMode(m), _) => Some(m)
    case Request(Command(RestoreDefaults), _) => Some(PowerLedMode.Auto)
    case Request(Command(ApplySettings), _) => Some(w.state.ledMode)
    case Event(SystemShuttingDown) => Some(PowerLedMode.Auto)
    case Event(SystemHibernating) => Some(PowerLedMode.Auto)
    case Event(SystemSleeping) => Some(Animation(SLEEP_BREATH))
    case Event(SystemWakingUp) => Some(w.state.ledMode)
    case Restart(_, id) => Some(Loaded(w.disk, id).ledMode)
    case _ => None
  }

  function StepTrack(l: LedTrack, w: World, x: Input, resp: IpcResponse): LedTrack {
    match TriedMode(w, x)
    case Some(m) =>
      // a new process starts with a clear flag
      if x.Restart? then Track(LedTrack(None, true), false, m, Worked(resp))
      else Track(l, w.ec.ledCustom, m, Worked(resp))
    case None => l
  }

  lemma TrackKeepsInv(t: Table, e: Ec, e': Ec, l: LedTrack, mode: PowerLedMode, ok: bool)
    requires LedInv(t, e, l) && Attempted(t, e, e', mode, ok)
    ensures LedInv(t, e', Track(l, e.ledCustom, mode, ok))
  {
  }

  lemma SameLedKeepsInv(t: Table, e: Ec, e': Ec, l: LedTrack)
    requires LedInv(t, e, l) && SameLed(t, e, e')
    ensures LedInv(t, e', l)
  {
    SameLedMeans(t, e, e', if l.shown.Some? then l.shown.value else PowerLedMode.Auto);
  }

  lemma OtherRequestsHaveNoLed(w: World, req: IpcRequest, id: u64)
    requires Served(req) && TriedMode(w, Request(req, id)).None?
    ensures NoLed(RequestActs(w, req, id))
  {
  }

  lemma RequestKeepsLed(t: Table, w: World, req: IpcRequest, id: u64, env: Env, resp: IpcResponse, w': World,
          l: LedTrack)
    requires Distinct(t) && LedInv(t, w.ec, l) && Served(req) && Handled(t, w, w', req, id, env, resp)
    ensures LedInv(t, w'.ec, StepTrack(l, w, Request(req, id), resp))
  {
    match TriedMode(w, Request(req, id)) {
      case None =>
        OtherRequestsHaveNoLed(w, req, id);
        PartOfElsewhere(t, w.ec, w'.ec, RequestActs(w, req, id), Worked(resp));
        SameLedKeepsInv(t, w.ec, w'.ec, l);
      case Some(m) =>
        TriedByRequest(t, w, req, id, w'.ec, Worked(resp));
        TrackKeepsInv(t, w.ec, w'.ec, l, m, Worked(resp));
    }
  }

  lemma TriedByRequest(t: Table, w: World, req: IpcRequest, id: u64, after: Ec, ok: bool)
    requires Distinct(t) && TriedMode(w, Request(req, id)).Some? && PartOf(t, w.ec, after, RequestActs(w, req, id), ok)
    ensures Attempted(t, w.ec, after, TriedMode(w, Request(req, id)).value, ok)
  {
    match req {
      case SetLedMode(m) => PartOfLed(t, w.ec, after, m, ok);
      case Command(RestoreDefaults) => PartOfRestoreLed(t, w.ec, after, DefaultSettings(id), ok);
      case Command(ApplySettings) => PartOfRestoreLed(t, w.ec, after, w.state, ok);
    }
  }

  lemma EventKeepsLed(t: Table, w: World, ev: InternalEvent, env: Env, resp: IpcResponse, w': World, l: LedTrack)
    requires Distinct(t) && LedInv(t, w.ec, l) && EventHandled(t, w, w', ev, env, Worked(resp))
    ensures LedInv(t, w'.ec, StepTrack(l, w, Event(ev), resp))
  {
    match TriedMode(w, Event(ev)) {
      case None =>
        var orange, white := ChargerShows(t, w, ev);
        ChargerKeepsLed(t, w.ec, w'.ec, orange, white, l);
      case Some(m) =>
        if ev.SystemWakingUp? {
          PartOfRestoreLed(t, w.ec, w'.ec, w.state, Worked(resp));
        } else {
          PartOfLed(t, w.ec, w'.ec, m, Worked(resp));
        }
        TrackKeepsInv(t, w.ec, w'.ec, l, m, Worked(resp));
    }
  }

  lemma ChargerKeepsLed(t: Table, e: Ec, e': Ec, orange: bool, white: bool, l: LedTrack)
    requires Distinct(t) && LedInv(t, e, l) && (e' == e || e' == BatteryLeds(t, e, orange, white))
    ensures LedInv(t, e', l)
  {
    OneWriteElsewhere(t, e, PortA, BatteryByte(e.At(t, PortA), orange, white), l);
  }

  lemma OneWriteElsewhere(t: Table, e: Ec, reg: Reg, val: byte, l: LedTrack)
    requires Distinct(t) && LedInv(t, e, l) && Owner(reg) != Led
    ensures LedInv(t, DoAct(t, e, Write(reg, val)), l)
  {
    var acts := [Write(reg, val)];
    assert acts[..0] == [] && DoAct(t, e, Write(reg, val)) == Do(t, e, acts);
    NoLedKeeps(t, e, acts);
    SameLedKeepsInv(t, e, Do(t, e, acts), l);
  }

  lemma StepKeepsLed(t: Table, w: World, x: Input, resp: IpcResponse, w': World, l: LedTrack)
    requires Distinct(t) && LedInv(t, w.ec, l) && Answerable(x) && Possible(t, w, x, resp, w')
    ensures LedInv(t, w'.ec, StepTrack(l, w, x, resp))
  {
    match x {
      case Request(req, id) =>
        var env :| Handled(t, w, w', req, id, env, resp);
        RequestKeepsLed(t, w, req, id, env, resp, w', l);
      case Event(ev) =>
        var env :| EventHandled(t, w, w', ev, env, Worked(resp));
        EventKeepsLed(t, w, ev, env, resp, w', l);
      case PeerReset =>
      case Restart(mem, id) =>
        PartOfRestoreLed(t, Ec(mem, false), w'.ec, w'.state, Worked(resp));
        TrackKeepsInv(t, Ec(mem, false), w'.ec, LedTrack(None, true), w'.state.ledMode, Worked(resp));
    }
  }

  // ---- Runs ----

  function LedOver(ws: seq<World>, xs: seq<Input>, resps: seq<IpcResponse>): LedTrack
    requires |ws| == |xs| + 1 && |resps| == |xs|
  {
    if xs == [] then LedTrack(None, true)
    else
      var n := |xs| - 1;
      StepTrack(LedOver(ws[..n + 1], xs[..n], resps[..n]), ws[n], xs[n], resps[n])
  }

  /**
   * Whatever port calls fail: the LED registers show the mode whose application succeeded last, as
   * long as no automatic mode failed with the flag set since the last automatic mode or restart.
   */
  lemma {:induction false} LedUnderFailures(t: Table, ws: seq<World>, xs: seq<Input>, resps: seq<IpcResponse>)
    requires Distinct(t) && Trace(t, ws, xs, resps) && FlagSound(t, ws[0].ec)
    ensures LedInv(t, ws[|xs|].ec, LedOver(ws, xs, resps))
  {
    if xs != [] {
      var n := |xs| - 1;
      TraceBefore(t, ws, xs, resps);
      LedUnderFailures(t, ws[..|xs|], xs[..n], resps[..n]);
      StepKeepsLed(t, ws[n], xs[n], resps[n], ws[n + 1], LedOver(ws[..n + 1], xs[..n], resps[..n]));
    }
  }

  /** An automatic mode failed while the flag was set. */
  predicate AutoFails(w: World, x: Input, resp: IpcResponse) {
    !x.Restart? && TriedMode(w, x) == Some(PowerLedMode.Auto) && !Worked(resp) && w.ec.ledCustom
  }

  /** The last input successfully applied a mode. */
  predicate JustApplied(ws: seq<World>, xs: seq<Input>, resps: seq<IpcResponse>)
    requires |ws| == |xs| + 1 && |resps| == |xs|
  {
    xs != [] && TriedMode(ws[|xs| - 1], xs[|xs| - 1]).Some? && Worked(resps[|xs| - 1])
  }

  /**
   * A mode that was applied, and after which nothing touched the LED, is known to be shown unless such
   * a failure came before.
   */
  lemma {:induction false} KnownUnlessAutoFails(ws: seq<World>, xs: seq<Input>, resps: seq<IpcResponse>)
    requires |ws| == |xs| + 1 && |resps| == |xs| && forall i :: 0 <= i < |xs| ==> !AutoFails(ws[i], xs[i], resps[i])
    ensures LedOver(ws, xs, resps).sound
    ensures JustApplied(ws, xs, resps) ==> LedOver(ws, xs, resps).shown == TriedMode(ws[|xs| - 1], xs[|xs| - 1])
  {
    if xs != [] {
      var n := |xs| - 1;
      forall i | 0 <= i < n
        ensures !AutoFails(ws[..n + 1][i], xs[..n][i], resps[..n][i])
      {
        assert !AutoFails(ws[i], xs[i], resps[i]);
      }
      KnownUnlessAutoFails(ws[..n + 1], xs[..n], resps[..n]);
      assert !AutoFails(ws[n], xs[n], resps[n]);
    }
  }
}
