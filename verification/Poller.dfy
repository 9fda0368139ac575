/**
 * The GUI poller and the commands that pause, resume and wake it, under an arbitrary scheduler:
 * gui/src/poller.rs, gui/src/tauri_cmds.rs, gui/src/tray.rs, gui/src/lib.rs.
 *
 * `reconnect_signal` is a Tokio `Notify`, which is not part of the repository. Assumed: `notify_one`
 * wakes the waiter if there is one and stores a single permit otherwise; waiting takes a stored
 * permit at once; a waiter that was woken but whose `select!` took the timer instead gives the
 * permit back.
 */
module Poller {
  import opened Bytes

  const MIN_INTERVAL := 500
  const MAX_INTERVAL := 60_000
  const DEFAULT_INTERVAL := 3000

  /** Why the poller sleeps. */
  datatype Nap = AfterError | Paused | Between(ms: nat)

  datatype Pc =
    | Connecting
    | CheckPause
    | Fetching
    | ReadInterval
    | AboutToSleep(nap: Nap)   // before `select!` first polls the notification
    | Asleep(nap: Nap)         // registered as the waiter
    | Woken(nap: Nap)          // notified, but not yet scheduled

  datatype App = App(
    pc: Pc,
    paused: bool,
    permit: bool,
    interval: nat,
    resuming: nat,    // UI threads between clearing `paused` and notifying
    waking: nat,      // UI threads between storing an interval and notifying
    events: seq<Seen>)

  /** History: what the poller saw and did. */
  datatype Seen = SawPaused | SawClear | Fetched

  datatype Step =
    // the poller
    | Connect(ok: bool)
    | Check
    | Fetch(ok: bool)
    | PickInterval
    | StartWaiting
    | TimerFires
    | TakeWake
    // the UI threads
    | Pause                    // set_poll_paused(true), or the window is closed
    | Resume                   // set_poll_paused(false), or the window comes to the front: the store
    | SetInterval(seconds: nat)
    | NotifyResumed | NotifyInterval | ReconnectNow

  function Clamp(x: nat, lo: nat, hi: nat): nat
    requires lo <= hi
  {
    if x < lo then lo else if x > hi then hi else x
  }

  /** Where the poller goes when it stops sleeping. */
  function AfterNap(nap: Nap): Pc {
    if nap.AfterError? then Connecting else CheckPause
  }

  function NotifyOne(a: App): App {
    if a.pc.Asleep? then a.(pc := Woken(a.pc.nap)) else a.(permit := true)
  }

  function Next(a: App, step: Step): Option<App> {
    match step
    case Connect(ok) =>
      if !a.pc.Connecting? then None
      else if ok then Some(a.(pc := CheckPause))
      else Some(a.(pc := AboutToSleep(AfterError)))
    case Check =>
      if !a.pc.CheckPause? then None
      else if a.paused then Some(a.(pc := AboutToSleep(Paused), events := a.events + [SawPaused]))
      else Some(a.(pc := Fetching, events := a.events + [SawClear]))
    case Fetch(ok) =>
      if !a.pc.Fetching? then None
      else Some(a.(pc := if ok then ReadInterval else Connecting, events := a.events + [Fetched]))
    case PickInterval =>
      if !a.pc.ReadInterval? then None else Some(a.(pc := AboutToSleep(Between(Max(a.interval, MIN_INTERVAL)))))
    case StartWaiting =>
      if !a.pc.AboutToSleep? then None
      else if a.permit then Some(a.(pc := AfterNap(a.pc.nap), permit := false))
      else Some(a.(pc := Asleep(a.pc.nap)))
    case TimerFires =>
      if a.pc.Asleep? then Some(a.(pc := AfterNap(a.pc.nap)))
      else if a.pc.Woken? then Some(a.(pc := AfterNap(a.pc.nap), permit := true))
      else None
    case TakeWake =>
      if a.pc.Woken? then Some(a.(pc := AfterNap(a.pc.nap))) else None
    case Pause => Some(a.(paused := true))
    case Resume => Some(a.(paused := false, resuming := a.resuming + 1))
    case SetInterval(seconds) => Some(a.(interval := Clamp(seconds * 1000, MIN_INTERVAL, MAX_INTERVAL),
        waking := a.waking + 1))
    case NotifyResumed => if a.resuming > 0 then Some(NotifyOne(a.(resuming := a.resuming - 1))) else None
    case NotifyInterval => if a.waking > 0 then Some(NotifyOne(a.(waking := a.waking - 1))) else None
    case ReconnectNow => Some(NotifyOne(a))
  }

  const BOOT := App(Connecting, false, false, DEFAULT_INTERVAL, 0, 0, [])

  function Run(a: App, steps: seq<Step>): Option<App> {
    if steps == [] then Some(a)
    else match Run(a, steps[..|steps| - 1])
         case None => None
         case Some(a') => Next(a', steps[|steps| - 1])
  }

  // ---- No wake-up is lost ----

  predicate WaitsForResume(a: App) {
    (a.pc.AboutToSleep? || a.pc.Asleep?) && a.pc.nap.Paused?
  }

  ghost predicate WakeInv(a: App) {
    && (WaitsForResume(a) && !a.paused ==> (a.pc.AboutToSleep? && a.permit) || a.resuming > 0)
    && (a.pc.Asleep? ==> !a.permit)
    && MIN_INTERVAL <= a.interval <= MAX_INTERVAL
    && ((a.pc.AboutToSleep? || a.pc.Asleep? || a.pc.Woken?) && a.pc.nap.Between?
        ==> MIN_INTERVAL <= a.pc.nap.ms <= MAX_INTERVAL)
  }

  lemma StepKeepsWakeInv(a: App, step: Step)
    requires WakeInv(a) && Next(a, step).Some?
    ensures WakeInv(Next(a, step).value)
  {
  }

  lemma {:induction false} WakeInvHolds(steps: seq<Step>)
    requires Run(BOOT, steps).Some?
    ensures WakeInv(Run(BOOT, steps).value)
  {
    if steps != [] {
      WakeInvHolds(steps[..|steps| - 1]);
      StepKeepsWakeInv(Run(BOOT, steps[..|steps| - 1]).value, steps[|steps| - 1]);
    }
  }

  /**
   * Main result, in every interleaving: if the poller went to sleep because it saw the pause flag
   * set, and the flag is clear now, then its wake-up is on its way - a permit is stored that it will
   * take at once, or some UI thread is between clearing the flag and notifying. Once it is
   * registered as the waiter, only the latter is possible.
   */
  lemma {:induction false} ResumeIsNeverLost(steps: seq<Step>)
    requires Run(BOOT, steps).Some? && WaitsForResume(Run(BOOT, steps).value) && !Run(BOOT, steps).value.paused
    ensures var a := Run(BOOT, steps).value;
            (a.pc.AboutToSleep? && a.permit) || a.resuming > 0
    ensures Run(BOOT, steps).value.pc.Asleep? ==> Run(BOOT, steps).value.resuming > 0
  {
    WakeInvHolds(steps);
  }

  /** Steps that complete what was begun: no timer, no new UI command, no network. */
  predicate Settling(s: Step) {
    s.Check? || s.StartWaiting? || s.TakeWake? || s.NotifyResumed? || s.NotifyInterval?
  }

  /** The flag is clear, and the poller is on its way from a pause to the next check. */
  predicate Resuming(a: App) {
    !a.paused && (WaitsForResume(a) || (a.pc.Woken? && a.pc.nap.Paused?) || a.pc.CheckPause?)
  }

  /** How far a resumed poller can still be from its next fetch. */
  function Distance(a: App): nat {
    4 * (a.resuming + a.waking)
    + (match a.pc
       case AboutToSleep(_) => if a.permit then 2 else 3
       case Asleep(_) => 2
       case Woken(_) => 2
       case CheckPause => 1
       case _ => 0)
  }

  /** A resumed poller needs no timer to get back to work: some settling step is possible. */
  lemma ResumedPollerCanMove(a: App) returns (s: Step)
    requires WakeInv(a) && Resuming(a)
    ensures Settling(s) && Next(a, s).Some?
  {
    s := match a.pc
         case AboutToSleep(_) => StartWaiting
         case Asleep(_) => NotifyResumed
         case Woken(_) => TakeWake
         case _ => Check;
  }

  /** And every settling step brings it closer. */
  lemma SettlingComesCloser(a: App, s: Step)
    requires WakeInv(a) && Resuming(a) && Settling(s) && Next(a, s).Some?
    ensures var a' := Next(a, s).value; Distance(a') < Distance(a) && WakeInv(a') && (Resuming(a') || a'.pc.Fetching?)
  {
    StepKeepsWakeInv(a, s);
  }

  ghost predicate AllSettling(steps: seq<Step>) { forall i :: 0 <= i < |steps| ==> Settling(steps[i]) }

  /** Somewhere along `steps` the poller was about to fetch. */
  ghost predicate ReachesFetch(a: App, steps: seq<Step>) {
    exists k :: 0 <= k <= |steps| && FetchesAt(a, steps, k)
  }

  ghost predicate FetchesAt(a: App, steps: seq<Step>, k: nat)
    requires k <= |steps|
  {
    Run(a, steps[..k]).Some? && Run(a, steps[..k]).value.pc.Fetching?
  }

  lemma ReachedBefore(a: App, steps: seq<Step>)
    requires steps != [] && ReachesFetch(a, steps[..|steps| - 1])
    ensures ReachesFetch(a, steps)
  {
    var before := steps[..|steps| - 1];
    var k :| 0 <= k <= |before| && FetchesAt(a, before, k);
    assert before[..k] == steps[..k];
    assert FetchesAt(a, steps, k);
  }

  lemma {:induction false} SettlingSchedule(a: App, steps: seq<Step>)
    requires WakeInv(a) && Resuming(a) && AllSettling(steps) && Run(a, steps).Some?
    ensures ReachesFetch(a, steps)
            || (|steps| + Distance(Run(a, steps).value) <= Distance(a) && WakeInv(Run(a, steps).value)
                && Resuming(Run(a, steps).value))
  {
    if steps != [] {
      var before := steps[..|steps| - 1];
      SettlingSchedule(a, before);
      if ReachesFetch(a, before) {
        ReachedBefore(a, steps);
      } else {
        SettlingComesCloser(Run(a, before).value, steps[|steps| - 1]);
        if Run(a, steps).value.pc.Fetching? {
          assert steps[..|steps|] == steps;
          assert FetchesAt(a, steps, |steps|);
        }
      }
    }
  }

  /**
   * A resume takes effect in a bounded number of steps and without any timer. In every interleaving,
   * once the flag is clear and stays clear, any schedule of settling steps as long as `Distance`
   * reaches the next fetch, and a shorter one that has not reached it can go on.
   */
  lemma {:induction false} ResumeReachesFetch(history: seq<Step>, steps: seq<Step>) returns (next: Step)
    requires Run(BOOT, history).Some? && Resuming(Run(BOOT, history).value)
    requires AllSettling(steps) && Run(Run(BOOT, history).value, steps).Some?
    ensures var a := Run(BOOT, history).value;
            || ReachesFetch(a, steps)
            || (|steps| < Distance(a) && Settling(next) && Next(Run(a, steps).value, next).Some?)
  {
    WakeInvHolds(history);
    var a := Run(BOOT, history).value;
    SettlingSchedule(a, steps);
    next := Check;
    if !ReachesFetch(a, steps) {
      next := ResumedPollerCanMove(Run(a, steps).value);
    }
  }

  // ---- No request is started while paused ----

  ghost predicate FetchesFollowClearChecks(events: seq<Seen>) {
    forall i :: 0 <= i < |events| && events[i].Fetched? ==> i > 0 && events[i - 1].SawClear?
  }

  ghost predicate FetchInv(a: App) {
    && FetchesFollowClearChecks(a.events)
    && (a.pc.Fetching? ==> a.events != [] && a.events[|a.events| - 1].SawClear?)
  }

  lemma StepKeepsFetchInv(a: App, step: Step)
    requires FetchInv(a) && Next(a, step).Some?
    ensures FetchInv(Next(a, step).value)
  {
    var b := Next(a, step).value;
    forall i | 0 <= i < |b.events| && b.events[i].Fetched?
      ensures i > 0 && b.events[i - 1].SawClear?
    {
      if i < |a.events| {
        assert a.events[i].Fetched?;
      }
    }
  }

  /**
   * Each fetch directly follows a check that saw the flag clear: after a check that saw it set, no
   * telemetry request starts until a later check sees it clear.
   */
  lemma {:induction false} NoFetchWhilePaused(steps: seq<Step>)
    requires Run(BOOT, steps).Some?
    ensures FetchInv(Run(BOOT, steps).value)
  {
    if steps != [] {
      NoFetchWhilePaused(steps[..|steps| - 1]);
      StepKeepsFetchInv(Run(BOOT, steps[..|steps| - 1]).value, steps[|steps| - 1]);
    }
  }

  function Fetches(events: seq<Seen>): nat {
    if events == [] then 0 else Fetches(events[..|events| - 1]) + if events[|events| - 1].Fetched? then 1 else 0
  }

  /** Fetches made, and the one that is decided on. */
  function FetchesDue(a: App): nat { Fetches(a.events) + if a.pc.Fetching? then 1 else 0 }

  lemma FetchesExtend(events: seq<Seen>, e: Seen)
    ensures Fetches(events + [e]) == Fetches(events) + if e.Fetched? then 1 else 0
  {
    assert (events + [e])[..|events|] == events;
  }

  lemma PausedStep(a: App, step: Step)
    requires a.paused && Next(a, step).Some? && !step.Resume?
    ensures var b := Next(a, step).value; b.paused && a.events <= b.events && FetchesDue(b) <= FetchesDue(a)
  {
    if step.Check? {
      FetchesExtend(a.events, SawPaused);
    } else if step.Fetch? {
      FetchesExtend(a.events, Fetched);
    }
  }

  /** After a pause, and until a resume, at most the one fetch already decided on still happens. */
  lemma {:induction false} PauseStopsFetching(a: App, steps: seq<Step>)
    requires a.paused && Run(a, steps).Some? && forall i :: 0 <= i < |steps| ==> !steps[i].Resume?
    ensures var b := Run(a, steps).value; b.paused && a.events <= b.events && FetchesDue(b) <= FetchesDue(a)
  {
    if steps != [] {
      PauseStopsFetching(a, steps[..|steps| - 1]);
      PausedStep(Run(a, steps[..|steps| - 1]).value, steps[|steps| - 1]);
    }
  }

  /**
   * Whatever the UI asks for, the poller never sleeps less than half a second or more than a minute
   * between samples.
   */
  lemma {:induction false} IntervalsStayInRange(steps: seq<Step>)
    requires Run(BOOT, steps).Some?
    ensures var pc := Run(BOOT, steps).value.pc;
            ((pc.AboutToSleep? || pc.Asleep? || pc.Woken?) && pc.nap.Between?)
            ==> MIN_INTERVAL <= pc.nap.ms <= MAX_INTERVAL
  {
    WakeInvHolds(steps);
  }

  // ---- How long it sleeps ----

  /** The seconds the UI asked for last. */
  function LastAsked(steps: seq<Step>): Option<nat> {
    if steps == [] then None
    else match steps[|steps| - 1]
         case SetInterval(seconds) => Some(seconds)
         case _ => LastAsked(steps[..|steps| - 1])
  }

  /** What the UI asked for, in milliseconds: half a second to a minute, and three seconds unasked. */
  function NapFor(asked: Option<nat>): nat {
    match asked
    case None => 3000
    case Some(seconds) => if seconds == 0 then 500 else if seconds <= 60 then 1000 * seconds else 60_000
  }

  lemma {:induction false} IntervalIsAsked(steps: seq<Step>)
    requires Run(BOOT, steps).Some?
    ensures Run(BOOT, steps).value.interval == NapFor(LastAsked(steps))
  {
    if steps != [] {
      IntervalIsAsked(steps[..|steps| - 1]);
    }
  }

  predicate Naps(pc: Pc, ms: nat) {
    (pc.AboutToSleep? || pc.Asleep? || pc.Woken?) && pc.nap == Between(ms)
  }

  lemma NapIsKept(a: App, step: Step, ms: nat)
    requires Next(a, step).Some? && !step.PickInterval? && Naps(Next(a, step).value.pc, ms)
    ensures Naps(a.pc, ms)
  {
  }

  lemma PickedNap(steps: seq<Step>)
    requires Run(BOOT, steps).Some? && steps != [] && steps[|steps| - 1].PickInterval?
    ensures Run(BOOT, steps).value.pc == AboutToSleep(Between(NapFor(LastAsked(steps[..|steps| - 1]))))
  {
    IntervalIsAsked(steps[..|steps| - 1]);
  }

  /** The nap `ms` is the one chosen at `k`, and none was chosen later. */
  ghost predicate ChosenAt(steps: seq<Step>, k: nat, ms: nat) {
    && k < |steps| && steps[k].PickInterval? && ms == NapFor(LastAsked(steps[..k]))
    && forall j :: k < j < |steps| ==> !steps[j].PickInterval?
  }

  /** Between two samples the poller sleeps as long as the UI had asked for last when the nap was chosen. */
  lemma {:induction false} NapWasAskedFor(steps: seq<Step>, ms: nat) returns (k: nat)
    requires Run(BOOT, steps).Some? && Naps(Run(BOOT, steps).value.pc, ms)
    ensures ChosenAt(steps, k, ms)
  {
    var n := |steps| - 1;
    k := n;
    if steps[n].PickInterval? {
      PickedNap(steps);
    } else {
      NapIsKept(Run(BOOT, steps[..n]).value, steps[n], ms);
      k := NapWasAskedFor(steps[..n], ms);
      assert steps[..n][..k] == steps[..k];
    }
  }

  // ---- Notifications and connections ----

  /** A notification wakes a sleeping poller, and is kept for the next sleep of one that is awake. */
  lemma NotificationsCount(a: App, step: Step)
    requires (step.NotifyResumed? || step.NotifyInterval? || step.ReconnectNow?) && Next(a, step).Some?
    ensures var b := Next(a, step).value;
            && (if a.pc.Asleep? then b.pc == Woken(a.pc.nap) else b.pc == a.pc && b.permit)
            && (a.pc.AboutToSleep? ==> Next(b, StartWaiting).Some? && !Next(b, StartWaiting).value.pc.Asleep?)
  {
  }

  /** A new interval, like a resume, is always followed up by a notification that is possible at once. */
  lemma ChangesNotify(a: App, seconds: nat)
    ensures Next(a, SetInterval(seconds)).Some? && Next(Next(a, SetInterval(seconds)).value, NotifyInterval).Some?
    ensures Next(a, Resume).Some? && Next(Next(a, Resume).value, NotifyResumed).Some?
    ensures Next(a, ReconnectNow).Some?
  {
  }

  /** The latest attempt to connect or to fetch worked. */
  predicate Linked(steps: seq<Step>) {
    if steps == [] then false
    else match steps[|steps| - 1]
         case Connect(ok) => ok
         case Fetch(ok) => ok
         case _ => Linked(steps[..|steps| - 1])
  }

  /** The poller is between a failure, or its start, and the next attempt to connect. */
  predicate Unconnected(pc: Pc) {
    pc.Connecting? || ((pc.AboutToSleep? || pc.Asleep? || pc.Woken?) && pc.nap.AfterError?)
  }

  /** Everything but connecting happens on a connection that has not failed; after a failure it connects again. */
  lemma {:induction false} ConnectsAfterFailures(steps: seq<Step>)
    requires Run(BOOT, steps).Some?
    ensures Unconnected(Run(BOOT, steps).value.pc) <==> !Linked(steps)
  {
    if steps != [] {
      ConnectsAfterFailures(steps[..|steps| - 1]);
    }
  }

  /** The latest of the two commands was a pause. */
  predicate AskedToPause(steps: seq<Step>) {
    if steps == [] then false
    else match steps[|steps| - 1]
         case Pause => true
         case Resume => false
         case _ => AskedToPause(steps[..|steps| - 1])
  }

  function Resumes(steps: seq<Step>): int {
    if steps == [] then 0
    else
      var before, last := Resumes(steps[..|steps| - 1]), steps[|steps| - 1];
      if last.Resume? then before + 1 else if last.NotifyResumed? then before - 1 else before
  }

  lemma FlagStep(a: App, step: Step)
    requires Next(a, step).Some?
    ensures var b := Next(a, step).value;
            && b.paused == (if step.Pause? then true else if step.Resume? then false else a.paused)
            && b.resuming == a.resuming + (if step.Resume? then 1 else if step.NotifyResumed? then -1 else 0)
  {
  }

  /** The flag is what the UI asked for last, and each resume is notified once. */
  lemma {:induction false} FlagIsAsked(steps: seq<Step>)
    requires Run(BOOT, steps).Some?
    ensures Run(BOOT, steps).value.paused <==> AskedToPause(steps)
    ensures Run(BOOT, steps).value.resuming == Resumes(steps)
  {
    if steps != [] {
      FlagIsAsked(steps[..|steps| - 1]);
      FlagStep(Run(BOOT, steps[..|steps| - 1]).value, steps[|steps| - 1]);
    }
  }
}
