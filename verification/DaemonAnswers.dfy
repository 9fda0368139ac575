/** What clients learn about the settings, and which settings survive a restart. */
module DaemonAnswers {
  import opened Bytes
  import opened EcPort
  import opened EcActs
  import opened EcDevice
  import opened EcRegs
  import opened Messages
  import opened Settings
  import opened Daemon
  import opened Coherence
  import opened DaemonRuns

  function AnswerTo(t: Table, w: World, c: DaemonCommand): IpcResponse
    requires Served(Command(c))
  {
    OnRequest(t, w, Command(c), 0).1
  }

  /** `GetSettings` answers with the record `s`, `GetTelemetryId` with its id, and both change nothing. */
  ghost predicate Reports(t: Table, w: World, s: CurrentSettings) {
    && AnswerTo(t, w, GetSettings) == FromDaemon(DaemonResponse.Settings(s))
    && AnswerTo(t, w, GetTelemetryId) == FromDaemon(TelemetryId(s.telemetryClientId))
    && OnRequest(t, w, Command(GetSettings), 0).0 == w && OnRequest(t, w, Command(GetTelemetryId), 0).0 == w
  }

  /** A started daemon reports what its file says, or the defaults if there is none. */
  lemma StartReportsTheFile(t: Table, start: Ec, disk: Option<CurrentSettings>, id: u64)
    ensures disk.Some? ==> Reports(t, Start(t, start, disk, id), disk.value)
    ensures disk.None? ==>
              Reports(t, Start(t, start, disk, id),
                CurrentSettings.CurrentSettings(Default, KeyboardLevel.Medium, FanMode.Auto, FanMode.Auto, FullCapacity,
                  PowerLedMode.Auto, true, id))
  {
  }

  /** Over whole runs, the registers are coherent with what is reported, up to the LED. */
  lemma {:induction false} ReportIsCoherent(t: Table, start: Ec, disk: Option<CurrentSettings>, id: u64, xs: seq<Input>)
    returns (s: CurrentSettings)
    requires Distinct(t) && DiskAllowed(disk) && AllServed(xs)
    ensures var w := Run(t, Start(t, start, disk, id), xs);
            Reports(t, w, s) && Coherent(t, w.ec, s) && FansAllowed(s)
  {
    CoherenceOverRuns(t, start, disk, id, xs);
    s := StateIsReported(t, Run(t, Start(t, start, disk, id), xs));
  }

  lemma StateIsReported(t: Table, w: World) returns (s: CurrentSettings)
    ensures Reports(t, w, s) && s == w.state
  {
    s := w.state;
  }

  /** Two reports agree but for the fields a request sets. */
  ghost predicate ReportAfter(before: CurrentSettings, after: CurrentSettings, req: IpcRequest, done: bool) {
    && after.powerProfile == (if done && req.SetPowerProfile? then req.profile else before.powerProfile)
    && after.keyboardBacklight == (if done && req.SetKeyboardBacklight? then req.level else before.keyboardBacklight)
    && after.fanModeCpu == (if done && req.SetFanMode? && req.fan.Cpu? then req.mode else before.fanModeCpu)
    && after.fanModeGpu == (if done && req.SetFanMode? && req.fan.Gpu? then req.mode else before.fanModeGpu)
    && after.chargeLimit == (if done && req.SetChargeLimit? then req.limit else before.chargeLimit)
    && after.ledMode == (if done && req.SetLedMode? then req.led else before.ledMode)
    && after.telemetryEnabled
       == (if req.Command? && req.command.ActivateTelemetry? then req.command.on else before.telemetryEnabled)
    && after.telemetryClientId == before.telemetryClientId
  }

  predicate DutyAccepted(mode: FanMode) { mode.Custom? ==> mode.duty <= 220 }

  /** Whether a setter is answered with success: always, unless it asks for a fan duty over 220. */
  predicate Accepted(req: IpcRequest) { req.SetFanMode? ==> DutyAccepted(req.mode) }

  /** The answer to a request that may change settings. */
  ghost predicate AnsweredWith(req: IpcRequest, resp: IpcResponse) {
    if IsGetter(req) then true
    else if !req.Command? then resp == if Accepted(req) then Success else Error([])
    else match req.command
         case ActivateTelemetry(on) => resp == if on then Success else TelemetryDisabledInfo
         case RestoreDefaults => resp == Success
         case _ => true
  }

  /** What a request does to the reports and what it is answered with. */
  lemma RequestChangesTheReport(t: Table, w: World, s: CurrentSettings, req: IpcRequest, id: u64)
    returns (s': CurrentSettings)
    requires Served(req) && Reports(t, w, s)
    ensures Reports(t, OnRequest(t, w, req, id).0, s') && AnsweredWith(req, OnRequest(t, w, req, id).1)
    ensures req == Command(ApplySettings) ==>
              OnRequest(t, w, req, id).1
              == if DutyAccepted(s.fanModeCpu) && DutyAccepted(s.fanModeGpu) then Success else Error([])
    ensures req != Command(RestoreDefaults) ==> ReportAfter(s, s', req, Accepted(req))
    ensures req == Command(RestoreDefaults) ==>
              s' == CurrentSettings.CurrentSettings(Default, KeyboardLevel.Medium, FanMode.Auto, FanMode.Auto,
                FullCapacity, PowerLedMode.Auto, true, id)
  {
    s' := OnRequest(t, w, req, id).0.state;
    match req {
      case Command(c) =>
      case SetFanMode(fan, mode) =>
      case _ =>
    }
  }

  // ---- The saved file ----

  /** Inputs that save the settings. */
  predicate Saves(x: Input) {
    || x.PeerReset?
    || (x.Event? && (x.event.SystemShuttingDown? || x.event.SystemHibernating? || x.event.SystemSleeping?))
    || (x.Request? && x.req.Command? && (x.req.command.RestoreDefaults? || x.req.command.ActivateTelemetry?))
  }

  lemma RequestSaves(t: Table, w: World, req: IpcRequest, id: u64)
    requires Served(req)
    ensures var w' := OnRequest(t, w, req, id).0;
            w'.disk == if Saves(Request(req, id)) then Some(w'.state) else w.disk
  {
    match req {
      case Command(c) =>
      case SetFanMode(fan, mode) =>
      case _ =>
    }
  }

  lemma InputSaves(t: Table, w: World, x: Input)
    requires Answerable(x)
    ensures var w' := Serve(t, w, x); w'.disk == if Saves(x) then Some(w'.state) else w.disk
  {
    if x.Request? {
      RequestSaves(t, w, x.req, x.id);
    }
  }

  /** The input at `i` is the last that saves. */
  ghost predicate LastSave(xs: seq<Input>, i: nat) {
    i < |xs| && Saves(xs[i]) && forall j :: i < j < |xs| ==> !Saves(xs[j])
  }

  /** Over whole runs, the file holds the settings as of the last input that saves. */
  lemma FileIsTheLastSave(t: Table, w: World, xs: seq<Input>, i: nat)
    requires AllServed(xs)
    ensures (forall j :: 0 <= j < |xs| ==> !Saves(xs[j])) ==> Run(t, w, xs).disk == w.disk
    ensures LastSave(xs, i) ==> Run(t, w, xs).disk == Some(Run(t, w, xs[..i + 1]).state)
  {
    if forall j :: 0 <= j < |xs| ==> !Saves(xs[j]) {
      NothingSaved(t, w, xs);
    }
    if LastSave(xs, i) {
      SavedLast(t, w, xs, i);
    }
  }

  lemma LastSaves(t: Table, w: World, xs: seq<Input>)
    requires AllServed(xs) && xs != []
    ensures Run(t, w, xs).disk
            == if Saves(xs[|xs| - 1]) then Some(Run(t, w, xs).state) else Run(t, w, xs[..|xs| - 1]).disk
  {
    RunLast(t, w, xs);
    InputSaves(t, Run(t, w, xs[..|xs| - 1]), xs[|xs| - 1]);
  }

  lemma {:induction false} NothingSaved(t: Table, w: World, xs: seq<Input>)
    requires AllServed(xs) && forall j :: 0 <= j < |xs| ==> !Saves(xs[j])
    ensures Run(t, w, xs).disk == w.disk
  {
    if xs != [] {
      NothingSaved(t, w, xs[..|xs| - 1]);
      LastSaves(t, w, xs);
    }
  }

  lemma {:induction false} SavedLast(t: Table, w: World, xs: seq<Input>, i: nat)
    requires AllServed(xs) && LastSave(xs, i)
    ensures Run(t, w, xs).disk == Some(Run(t, w, xs[..i + 1]).state)
  {
    LastSaves(t, w, xs);
    if i < |xs| - 1 {
      SavedLast(t, w, xs[..|xs| - 1], i);
      assert xs[..|xs| - 1][..i + 1] == xs[..i + 1];
    } else {
      assert xs[..i + 1] == xs;
    }
  }

  /** After a restart the daemon reports the settings as of the last save. */
  lemma RestartReportsTheLastSave(t: Table, w: World, xs: seq<Input>, i: nat, mem: Memory, id: u64)
    requires AllServed(xs) && LastSave(xs, i)
    ensures Reports(t, Serve(t, Run(t, w, xs), Restart(mem, id)), Run(t, w, xs[..i + 1]).state)
  {
    FileIsTheLastSave(t, w, xs, i);
    StartReportsTheFile(t, Ec(mem, false), Run(t, w, xs).disk, id);
  }
}
