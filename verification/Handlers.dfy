/**
 * Request handlers and events as concurrent programs over the chip: batches under the I/O mutex, the
 * settings lock, which everybody only tries, and the LED flag, which has no lock (daemon/src/handlers.rs,
 * daemon/src/main.rs). Of the settings, the charge limit is followed.
 */
module Handlers {
  import opened Bytes
  import opened EcPort
  import opened EcSchedule
  import opened EcRegs
  import opened EcActs
  import opened Settings
  import opened SharedPairs

  /** What a handler still has to do. */
  datatype Task =
    | Hardware(b: Batch)
    | TryState                             // get_state()?
    | Store(limit: ChargeLimit)
    | DropState
    | EnsureCustom(writes: seq<Batch>)     // unless the LED flag is set: these writes, then set it
    | SetFlag(on: bool)
    | Ignore                               // an error up to here is ignored

  function Hardwares(batches: seq<Batch>): seq<Task> {
    seq(|batches|, i requires 0 <= i < |batches| => Hardware(batches[i]))
  }

  function TakeOver(writes: seq<Batch>): seq<Task> { Hardwares(writes) + [SetFlag(true)] }

  // ---- Programs ----

  /** `set_charge_limit`. */
  function SetProgram(t: Table, limit: ChargeLimit): seq<Task> {
    [Hardware(BatchOf(t, SetLimit(limit))), TryState, Store(limit), DropState]
  }

  /** A command that restores: it keeps the settings locked around its batches. */
  function ApplyProgram(batches: seq<Batch>): seq<Task> { [TryState] + Hardwares(batches) + [DropState] }

  /** A batch of one register write. */
  function WriteReg(t: Table, reg: Reg, val: byte): Task { Hardware(BatchOf(t, WriteOne(reg, val))) }

  function EnsureCustomProgram(t: Table): seq<Task> {
    [EnsureCustom([BatchOf(t, WriteOne(Bypass, 0x01)), BatchOf(t, WriteOne(A0Mux, 0x00))])]
  }

  /** `apply_led_mode`. */
  function LedProgram(t: Table, mode: PowerLedMode): seq<Task> {
    var reset := [Hardware(BatchOf(t, ResetEngine))];
    match mode
    case Auto => [WriteReg(t, Bypass, 0x00)] + reset + [SetFlag(false)]
    case Custom(b) => EnsureCustomProgram(t) + reset + [WriteReg(t, LedDuty, b)]
    case Animation(c) => EnsureCustomProgram(t) + reset + LaunchProgram(t, c)
  }

  /** One register write after the other. */
  function WriteRegs(t: Table, writes: seq<(Reg, byte)>): seq<Task> {
    seq(|writes|, i requires 0 <= i < |writes| => WriteReg(t, writes[i].0, writes[i].1))
  }

  function LaunchProgram(t: Table, c: BreathConfig): seq<Task> {
    WriteRegs(t, LaunchWrites(c.StepByte(), c.DelayByte()))
  }

  function LaunchWrites(step: byte, delay: byte): seq<(Reg, byte)> {
    [(Prescaler, 0x00), (Cycle, 0xFF), (BreathStepReg, step), (BreathDelayReg, delay), (BreathEn, 0x01)]
  }

  /** `set_led_mode`; what it stores is not followed. */
  function LedHandler(t: Table, mode: PowerLedMode): seq<Task> { LedProgram(t, mode) + [TryState, DropState] }

  /** The readings of `read_and_save_state`: each may fail without consequence for the others. */
  function Readings(t: Table): seq<Task> {
    [ReadReg(t, Kbd), ReadReg(t, KbdVal), Ignore, ReadReg(t, Power), Ignore,
     ReadReg(t, LimitMin), ReadReg(t, LimitMax), Ignore]
  }

  function ReadReg(t: Table, reg: Reg): Task { Hardware(BatchOf(t, Look([t(reg)]))) }

  function ReadAndSave(t: Table): seq<Task> { [TryState] + Readings(t) + [DropState] }

  /** An event that overrides the LED before the machine powers down: it goes on whatever fails. */
  function EventProgram(t: Table, mode: PowerLedMode): seq<Task> { LedProgram(t, mode) + [Ignore] + ReadAndSave(t) }

  // ---- Running them ----

  /** What the handlers share besides the chip, and what each still has to do. */
  datatype Shared = Shared(
    todo: seq<seq<Task>>,              // per thread
    guard: Option<nat>,                // who holds the settings
    remembered: ChargeLimit,
    stores: seq<(nat, ChargeLimit)>,   // history
    flag: bool)                        // IS_LED_ALREADY_CUSTOM

  datatype World = World(
    s: System,
    since: seq<nat>,                   // per thread: the log when it last ignored an error
    c: Shared)

  datatype Move =
    | Chip(step: Step)       // a step of a batch in progress
    | Go(t: nat)             // the next task of handler t
    | Abort(t: nat)          // its last batch failed: the operation is given up

  /** Whether the latest batch of thread `t` succeeded. */
  function LastOk(t: nat, log: seq<Entry>): bool {
    if log == [] then true
    else if log[|log| - 1].tid == t then log[|log| - 1].ok
    else LastOk(t, log[..|log| - 1])
  }

  predicate Fine(w: World, t: nat)
    requires t < |w.since|
  {
    w.since[t] <= |w.s.log| ==> LastOk(t, w.s.log[w.since[t]..])
  }

  function Held(c: Shared, t: nat): bool { c.guard == Some(t) }

  /** After an error: on to where it is ignored, or out of the handler, dropping the settings if held. */
  function GivenUp(todo: seq<Task>, held: bool): seq<Task> {
    if todo == [] then []
    else match todo[0]
         case Ignore => todo
         case Hardware(_) => GivenUp(todo[1..], held)
         case EnsureCustom(_) => GivenUp(todo[1..], held)
         case SetFlag(_) => GivenUp(todo[1..], held)
         case _ => if held then [DropState] else []
  }

  /** The effect of a task that is no batch. */
  function Local(c: Shared, t: nat): Shared
    requires t < |c.todo| && c.todo[t] != [] && !c.todo[t][0].Hardware?
  {
    var rest := c.todo[t := c.todo[t][1..]];
    match c.todo[t][0]
    case TryState => if c.guard.None? then c.(guard := Some(t), todo := rest) else c.(todo := c.todo[t := []])
    case Store(l) => c.(remembered := l, stores := c.stores + [(t, l)], todo := rest)
    case DropState => c.(guard := None, todo := rest)
    case EnsureCustom(writes) =>
      if c.flag then c.(todo := rest) else c.(todo := c.todo[t := TakeOver(writes) + c.todo[t][1..]])
    case SetFlag(on) => c.(flag := on, todo := rest)
    case Ignore => c.(todo := rest)
  }

  predicate Ready(w: World, t: nat) {
    t < |w.c.todo| && t < |w.s.threads| && t < |w.since| && w.s.threads[t].Idle? && w.c.todo[t] != []
  }

  function NextMove(w: World, m: Move): Option<World> {
    match m
    case Chip(step) =>
      if step.Request? then None
      else (match Next(w.s, step) case Some(s') => Some(w.(s := s')) case None => None)
    case Go(t) =>
      if !Ready(w, t) then None
      else
        var task := w.c.todo[t][0];
        if !task.DropState? && !task.Ignore? && !Fine(w, t) then None
        else if task.Hardware? then
          (match Next(w.s, Request(t, task.b))
           case Some(s') => Some(w.(s := s', c := w.c.(todo := w.c.todo[t := w.c.todo[t][1..]])))
           case None => None)
        else
          var since := if task.Ignore? then w.since[t := |w.s.log|] else w.since;
          Some(w.(c := Local(w.c, t), since := since))
    case Abort(t) =>
      if !Ready(w, t) || Fine(w, t) then None
      else if |w.c.todo[t]| <= |GivenUp(w.c.todo[t], Held(w.c, t))| then None
      else Some(w.(c := w.c.(todo := w.c.todo[t := GivenUp(w.c.todo[t], Held(w.c, t))])))
  }

  function RunMoves(w: World, ms: seq<Move>): Option<World> {
    if ms == [] then Some(w)
    else match RunMoves(w, ms[..|ms| - 1])
         case None => None
         case Some(w') => NextMove(w', ms[|ms| - 1])
  }

  /** Fresh handlers over a chip, with nothing locked. */
  function Launch(hw: Hw, programs: seq<seq<Task>>, initial: ChargeLimit, flag: bool): World {
    World(Boot(hw, |programs|), seq(|programs|, _ => 0), Shared(programs, None, initial, [], flag))
  }

  // ---- Whose errors stop a handler ----

  /** Entry `i` is the latest batch of thread `t`. */
  ghost predicate Latest(t: nat, log: seq<Entry>, i: nat) {
    i < |log| && log[i].tid == t && forall j :: i < j < |log| ==> log[j].tid != t
  }

  lemma {:induction false} LastOkIff(t: nat, log: seq<Entry>)
    ensures LastOk(t, log) <==> forall i: nat :: Latest(t, log, i) ==> log[i].ok
  {
    if log != [] {
      var n := |log| - 1;
      LastOkIff(t, log[..n]);
      if log[n].tid == t {
        assert Latest(t, log, n);
      } else {
        forall i: nat
          ensures Latest(t, log, i) <==> Latest(t, log[..n], i)
        {
        }
      }
    }
  }

  /** A handler goes on after its own latest batch succeeded, and gives up only after that one failed. */
  lemma OnlyOwnErrorsStop(w: World, t: nat)
    requires Ready(w, t) && w.since[t] <= |w.s.log|
    ensures var log, task := w.s.log[w.since[t]..], w.c.todo[t][0];
            && (NextMove(w, Abort(t)).Some? ==> exists i: nat :: Latest(t, log, i) && !log[i].ok)
            && (NextMove(w, Go(t)).Some? && !task.DropState? && !task.Ignore? ==>
                  forall i: nat :: Latest(t, log, i) ==> log[i].ok)
  {
    LastOkIff(t, w.s.log[w.since[t]..]);
  }

  // ---- Nobody ever waits for the settings ----

  /** The program takes the settings before it stores, drops them in the end, and never takes them twice. */
  predicate Paired(todo: seq<Task>, held: bool) {
    if todo == [] then !held
    else match todo[0]
         case TryState => !held && Paired(todo[1..], true)
         case Store(_) => held && Paired(todo[1..], held)
         case DropState => held && Paired(todo[1..], false)
         case _ => Paired(todo[1..], held)
  }

  ghost predicate AllPaired(programs: seq<seq<Task>>) {
    forall i :: 0 <= i < |programs| ==> Paired(programs[i], false)
  }

  ghost predicate HandlersInv(m: Memory, w: World) {
    && LockInv(m, w.s) && |w.c.todo| == |w.since| == |w.s.threads|
    && (w.c.guard.Some? ==> w.c.guard.value < |w.c.todo|)
    && (forall t :: 0 <= t < |w.since| ==> w.since[t] <= |w.s.log|)
    && forall t :: 0 <= t < |w.c.todo| ==> Paired(w.c.todo[t], Held(w.c, t))
  }

  predicate Plain(task: Task) { task.Hardware? || task.EnsureCustom? || task.SetFlag? || task.Ignore? }

  lemma {:induction false} PlainThen(a: seq<Task>, b: seq<Task>, held: bool)
    requires forall i :: 0 <= i < |a| ==> Plain(a[i])
    ensures Paired(a + b, held) <==> Paired(b, held)
  {
    if a == [] {
      assert a + b == b;
    } else {
      PlainThen(a[1..], b, held);
      assert (a + b)[1..] == a[1..] + b;
    }
  }

  lemma SettersArePaired(t: Table, limit: ChargeLimit)
    ensures Paired(SetProgram(t, limit), false)
  {
    var drop, store, try := [DropState], [Store(limit), DropState], [TryState, Store(limit), DropState];
    assert drop[1..] == [] && Paired(drop, true);
    assert store[1..] == drop && try[1..] == store && SetProgram(t, limit)[1..] == try;
  }

  /** A program that holds the settings around plain tasks. */
  lemma LockedIsPaired(tasks: seq<Task>)
    requires forall i :: 0 <= i < |tasks| ==> Plain(tasks[i])
    ensures Paired([TryState] + tasks + [DropState], false)
  {
    PlainThen(tasks, [DropState], true);
    assert [DropState][1..] == [];
    assert ([TryState] + tasks + [DropState])[1..] == tasks + [DropState];
  }

  lemma LedIsPlain(t: Table, mode: PowerLedMode)
    ensures forall i :: 0 <= i < |LedProgram(t, mode)| ==>
              Plain(LedProgram(t, mode)[i]) && !LedProgram(t, mode)[i].Ignore?
  {
  }

  /** The programs above are well-formed. */
  lemma ProgramsArePaired(t: Table, limit: ChargeLimit, batches: seq<Batch>, mode: PowerLedMode)
    ensures Paired(SetProgram(t, limit), false) && Paired(ApplyProgram(batches), false)
    ensures Paired(LedHandler(t, mode), false) && Paired(EventProgram(t, mode), false)
  {
    SettersArePaired(t, limit);
    LockedIsPaired(Hardwares(batches));
    LedIsPlain(t, mode);
    LockedIsPaired([]);
    PlainThen(LedProgram(t, mode), [TryState] + [] + [DropState], false);
    assert LedHandler(t, mode) == LedProgram(t, mode) + ([TryState] + [] + [DropState]);
    LockedIsPaired(Readings(t));
    PlainThen(LedProgram(t, mode) + [Ignore], ReadAndSave(t), false);
  }

  lemma {:induction false} GivenUpIsPaired(todo: seq<Task>, held: bool)
    requires Paired(todo, held)
    ensures Paired(GivenUp(todo, held), held)
    ensures |GivenUp(todo, held)| <= |todo|
    ensures todo != [] && !todo[0].Ignore? && !todo[0].DropState? ==> |GivenUp(todo, held)| < |todo|
  {
    assert [DropState][1..] == [];
    if todo != [] {
      if Plain(todo[0]) && !todo[0].Ignore? {
        GivenUpIsPaired(todo[1..], held);
      } else if todo[0].Store? {
        assert Paired(todo[1..], true);
        assert todo[1..] != [];
      }
    }
  }

  lemma {:induction false} GivenUpPast(a: seq<Task>, b: seq<Task>, held: bool)
    requires forall i :: 0 <= i < |a| ==> Plain(a[i]) && !a[i].Ignore?
    ensures GivenUp(a + b, held) == GivenUp(b, held)
  {
    if a == [] {
      assert a + b == b;
    } else {
      GivenUpPast(a[1..], b, held);
      assert (a + b)[1..] == a[1..] + b;
    }
  }

  /**
   * Wherever the LED operation of an event or of a request fails, in or after its take-over: the event
   * goes on to save the settings, the request ends.
   */
  lemma EventsIgnoreErrors(t: Table, mode: PowerLedMode, k: nat, writes: seq<Batch>)
    requires k <= |LedProgram(t, mode)|
    ensures var left := TakeOver(writes) + LedProgram(t, mode)[k..];
            && GivenUp(left + ([Ignore] + ReadAndSave(t)), false) == [Ignore] + ReadAndSave(t)
            && GivenUp(left + [TryState, DropState], false) == []
  {
    LedIsPlain(t, mode);
    var left := TakeOver(writes) + LedProgram(t, mode)[k..];
    GivenUpPast(left, [Ignore] + ReadAndSave(t), false);
    GivenUpPast(left, [TryState, DropState], false);
  }

  lemma LocalKeepsPaired(c: Shared, t: nat, u: nat)
    requires t < |c.todo| && u < |c.todo| && c.todo[t] != [] && !c.todo[t][0].Hardware?
    requires Paired(c.todo[t], Held(c, t)) && Paired(c.todo[u], Held(c, u))
    ensures var c' := Local(c, t); Paired(c'.todo[u], Held(c', u))
  {
    if u == t && c.todo[t][0].EnsureCustom? {
      PlainThen(TakeOver(c.todo[t][0].writes), c.todo[t][1..], Held(c, t));
    }
  }

  lemma GoKeepsInv(m: Memory, w: World, t: nat)
    requires HandlersInv(m, w) && NextMove(w, Go(t)).Some?
    ensures HandlersInv(m, NextMove(w, Go(t)).value)
  {
    var w' := NextMove(w, Go(t)).value;
    if w.c.todo[t][0].Hardware? {
      StepKeepsLockInv(m, w.s, Request(t, w.c.todo[t][0].b));
    } else {
      forall u | 0 <= u < |w'.c.todo|
        ensures Paired(w'.c.todo[u], Held(w'.c, u))
      {
        LocalKeepsPaired(w.c, t, u);
      }
    }
  }

  lemma AbortKeepsInv(m: Memory, w: World, t: nat)
    requires HandlersInv(m, w) && NextMove(w, Abort(t)).Some?
    ensures HandlersInv(m, NextMove(w, Abort(t)).value)
  {
    GivenUpIsPaired(w.c.todo[t], Held(w.c, t));
  }

  lemma ChipKeepsInv(m: Memory, w: World, step: Step)
    requires HandlersInv(m, w) && NextMove(w, Chip(step)).Some?
    ensures HandlersInv(m, NextMove(w, Chip(step)).value)
  {
    StepKeepsLockInv(m, w.s, step);
    ThreadsStay(w.s, step);
    var w' := NextMove(w, Chip(step)).value;
    assert w'.c == w.c && w'.since == w.since;
  }

  lemma ThreadsStay(s: System, step: Step)
    requires Next(s, step).Some?
    ensures |Next(s, step).value.threads| == |s.threads|
  {
  }

  lemma MoveKeepsInv(m: Memory, w: World, move: Move)
    requires HandlersInv(m, w) && NextMove(w, move).Some?
    ensures HandlersInv(m, NextMove(w, move).value)
  {
    match move {
      case Chip(step) => ChipKeepsInv(m, w, step);
      case Go(t) => GoKeepsInv(m, w, t);
      case Abort(t) => AbortKeepsInv(m, w, t);
    }
  }

  /**
   * No deadlock with both locks: as long as a thread is busy with the chip or has tasks left, some move
   * is possible. Waiting happens for the I/O mutex only, because the settings are only ever tried.
   */
  lemma HandlersNeverDeadlock(m: Memory, w: World, t: nat)
    requires HandlersInv(m, w) && t < |w.c.todo| && (w.c.todo[t] != [] || !w.s.threads[t].Idle?)
    ensures exists move :: NextMove(w, move).Some?
  {
    if !w.s.threads[t].Idle? {
      NoDeadlock(m, w.s, t);
      var step: Step :| !step.Request? && Next(w.s, step).Some?;
      assert NextMove(w, Chip(step)).Some?;
    } else if w.c.todo[t][0].DropState? || w.c.todo[t][0].Ignore? || Fine(w, t) {
      assert NextMove(w, Go(t)).Some?;
    } else {
      GivenUpIsPaired(w.c.todo[t], Held(w.c, t));
      assert NextMove(w, Abort(t)).Some?;
    }
  }

  // ---- Every schedule ends ----

  function BatchWeight(b: Batch): nat { 12 * |b| + 5 }

  function BatchWeights(bs: seq<Batch>): nat {
    if bs == [] then 0 else BatchWeight(bs[0]) + BatchWeights(bs[1..])
  }

  function TaskWeight(task: Task): nat {
    match task
    case Hardware(b) => BatchWeight(b)
    case EnsureCustom(writes) => BatchWeights(writes) + 2
    case _ => 1
  }

  function Weight(todo: seq<Task>): nat {
    if todo == [] then 0 else TaskWeight(todo[0]) + Weight(todo[1..])
  }

  function Weights(todo: seq<seq<Task>>): nat {
    if todo == [] then 0 else Weight(todo[0]) + Weights(todo[1..])
  }

  lemma {:induction false} WeightsUpdate(todo: seq<seq<Task>>, t: nat, p: seq<Task>)
    requires t < |todo|
    ensures Weights(todo[t := p]) == Weights(todo) - Weight(todo[t]) + Weight(p)
  {
    if t == 0 {
      assert todo[0 := p][1..] == todo[1..];
    } else {
      WeightsUpdate(todo[1..], t - 1, p);
      assert todo[t := p][1..] == todo[1..][t - 1 := p];
    }
  }

  lemma {:induction false} WeightAppend(a: seq<Task>, b: seq<Task>)
    ensures Weight(a + b) == Weight(a) + Weight(b)
  {
    if a == [] {
      assert a + b == b;
    } else {
      WeightAppend(a[1..], b);
      assert (a + b)[1..] == a[1..] + b;
    }
  }

  lemma {:induction false} HardwaresWeight(bs: seq<Batch>)
    ensures Weight(Hardwares(bs)) == BatchWeights(bs)
  {
    if bs != [] {
      HardwaresWeight(bs[1..]);
      assert Hardwares(bs)[1..] == Hardwares(bs[1..]);
    }
  }

  lemma TakeOverWeight(writes: seq<Batch>, rest: seq<Task>)
    ensures Weight(TakeOver(writes) + rest) == BatchWeights(writes) + 1 + Weight(rest)
  {
    HardwaresWeight(writes);
    WeightAppend(Hardwares(writes), [SetFlag(true)]);
    WeightAppend(TakeOver(writes), rest);
    assert [SetFlag(true)][1..] == [];
  }

  function Left(w: World): nat { Weights(w.c.todo) + Total(w.s.threads) }

  lemma LocalMakesProgress(c: Shared, t: nat)
    requires t < |c.todo| && c.todo[t] != [] && !c.todo[t][0].Hardware?
    ensures Weights(Local(c, t).todo) < Weights(c.todo)
  {
    WeightsUpdate(c.todo, t, c.todo[t][1..]);
    WeightsUpdate(c.todo, t, []);
    if c.todo[t][0].EnsureCustom? {
      TakeOverWeight(c.todo[t][0].writes, c.todo[t][1..]);
      WeightsUpdate(c.todo, t, TakeOver(c.todo[t][0].writes) + c.todo[t][1..]);
    }
  }

  lemma GoMakesProgress(w: World, t: nat)
    requires NextMove(w, Go(t)).Some?
    ensures Left(NextMove(w, Go(t)).value) < Left(w)
  {
    if w.c.todo[t][0].Hardware? {
      WeightsUpdate(w.c.todo, t, w.c.todo[t][1..]);
      TotalUpdate(w.s.threads, t, Waiting(w.c.todo[t][0].b));
    } else {
      LocalMakesProgress(w.c, t);
    }
  }

  lemma {:induction false} WeightAtLeast(todo: seq<Task>)
    ensures Weight(todo) >= |todo|
  {
    if todo != [] {
      WeightAtLeast(todo[1..]);
    }
  }

  lemma {:induction false} GivenUpIsLighter(todo: seq<Task>, held: bool)
    ensures |GivenUp(todo, held)| <= |todo| && Weight(GivenUp(todo, held)) <= Weight(todo)
    ensures |GivenUp(todo, held)| < |todo| ==> Weight(GivenUp(todo, held)) < Weight(todo)
  {
    WeightAtLeast(todo);
    assert [DropState][1..] == [];
    if todo != [] && Plain(todo[0]) && !todo[0].Ignore? {
      GivenUpIsLighter(todo[1..], held);
    }
  }

  lemma AbortMakesProgress(w: World, t: nat)
    requires NextMove(w, Abort(t)).Some?
    ensures Left(NextMove(w, Abort(t)).value) < Left(w)
  {
    WeightsUpdate(w.c.todo, t, GivenUp(w.c.todo[t], Held(w.c, t)));
    GivenUpIsLighter(w.c.todo[t], Held(w.c, t));
  }

  lemma MoveMakesProgress(m: Memory, w: World, move: Move)
    requires HandlersInv(m, w) && NextMove(w, move).Some?
    ensures Left(NextMove(w, move).value) < Left(w)
  {
    match move {
      case Chip(step) => StepMakesProgress(m, w.s, step);
      case Go(t) => GoMakesProgress(w, t);
      case Abort(t) => AbortMakesProgress(w, t);
    }
  }

  /** Under any scheduler, the handlers are done after at most `Left` moves. */
  lemma {:induction false} HandlersFinish(m: Memory, w: World, ms: seq<Move>)
    requires HandlersInv(m, w) && RunMoves(w, ms).Some?
    ensures HandlersInv(m, RunMoves(w, ms).value) && |ms| + Left(RunMoves(w, ms).value) <= Left(w)
  {
    if ms != [] {
      HandlersFinish(m, w, ms[..|ms| - 1]);
      MoveKeepsInv(m, RunMoves(w, ms[..|ms| - 1]).value, ms[|ms| - 1]);
      MoveMakesProgress(m, RunMoves(w, ms[..|ms| - 1]).value, ms[|ms| - 1]);
    }
  }
}
