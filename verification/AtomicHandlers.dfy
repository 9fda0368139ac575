/**
 * The handlers with batches that happen at once. Every interleaving of port steps without errors is a
 * run of these, and each of their runs happens.
 */
module AtomicHandlers {
  import opened Bytes
  import opened EcPort
  import opened EcSchedule
  import opened Settings
  import opened Handlers

  datatype Atom = Atom(mem: Memory, c: Shared)

  /** The next task of handler `t`, at once. */
  function Advance(a: Atom, t: nat): Option<Atom> {
    if t >= |a.c.todo| || a.c.todo[t] == [] then None
    else if a.c.todo[t][0].Hardware?
    then Some(Atom(MemAfter(a.mem, a.c.todo[t][0].b), a.c.(todo := a.c.todo[t := a.c.todo[t][1..]])))
    else Some(a.(c := Local(a.c, t)))
  }

  function Turns(a: Atom, ts: seq<nat>): Option<Atom> {
    if ts == [] then Some(a)
    else match Turns(a, ts[..|ts| - 1])
         case None => None
         case Some(a') => Advance(a', ts[|ts| - 1])
  }

  lemma OneTurn(a: Atom, t: nat)
    ensures Turns(a, [t]) == Advance(a, t)
  {
    assert [t][..0] == [];
  }

  lemma {:induction false} TurnsAppend(a: Atom, xs: seq<nat>, ys: seq<nat>)
    requires Turns(a, xs).Some?
    ensures Turns(a, xs + ys) == Turns(Turns(a, xs).value, ys)
  {
    if ys == [] {
      assert xs + ys == xs;
    } else {
      TurnsAppend(a, xs, ys[..|ys| - 1]);
      assert (xs + ys)[..|xs + ys| - 1] == xs + ys[..|ys| - 1];
    }
  }

  // ---- What a world looks like from outside ----

  ghost predicate FaultFree(ms: seq<Move>) { forall i :: 0 <= i < |ms| ==> NoFault(ms[i]) }

  predicate NoFault(move: Move) { move.Chip? && move.step.Port? ==> !move.step.fault }

  ghost predicate NoError(s: System) {
    && (forall i :: 0 <= i < |s.log| ==> s.log[i].ok)
    && forall t :: 0 <= t < |s.threads| && s.threads[t].Running? ==> !s.threads[t].failed
  }

  /** What is left of each program, the batch in progress included. */
  function Unfinished(ths: seq<Thread>, todo: seq<seq<Task>>): seq<seq<Task>>
    requires |todo| == |ths|
  {
    seq(|todo|, i requires 0 <= i < |todo| => Hardwares(Pending(ths[i])) + todo[i])
  }

  /** Finished batches count, batches in progress have not begun. */
  ghost function Seen(m: Memory, w: World): Atom
    requires HandlersInv(m, w)
  {
    Atom(Replay(m, w.s.log), w.c.(todo := Unfinished(w.s.threads, w.c.todo)))
  }

  /** No batch is in progress, and none has failed. */
  ghost predicate Rested(m: Memory, w: World) {
    && HandlersInv(m, w) && NoError(w.s) && w.s.holder.None?
    && forall t :: 0 <= t < |w.s.threads| ==> w.s.threads[t].Idle?
  }

  lemma RestedSeen(m: Memory, w: World)
    requires Rested(m, w)
    ensures Seen(m, w) == Atom(w.s.hw.mem, w.c)
  {
    IdleUnfinished(w.s.threads, w.c.todo);
  }

  lemma IdleUnfinished(ths: seq<Thread>, todo: seq<seq<Task>>)
    requires |todo| == |ths| && forall t :: 0 <= t < |ths| ==> ths[t].Idle?
    ensures Unfinished(ths, todo) == todo
  {
    forall i | 0 <= i < |todo|
      ensures Unfinished(ths, todo)[i] == todo[i]
    {
      assert Hardwares([]) + todo[i] == todo[i];
    }
  }

  ghost predicate AllDone(w: World) {
    && w.s.holder.None?
    && (forall u :: 0 <= u < |w.s.threads| ==> w.s.threads[u].Idle?)
    && forall u :: 0 <= u < |w.c.todo| ==> w.c.todo[u] == []
  }

  /** A run without errors in which all handlers finish. */
  ghost predicate FinishedRun(w: World, ms: seq<Move>) {
    RunMoves(w, ms).Some? && FaultFree(ms) && AllDone(RunMoves(w, ms).value)
  }

  /** Fresh handlers are rested. */
  lemma LaunchIsRested(hw: Hw, programs: seq<seq<Task>>, initial: ChargeLimit, flag: bool)
    requires AllPaired(programs)
    ensures var w := Launch(hw, programs, initial, flag);
            Rested(hw.mem, w) && Seen(hw.mem, w) == Atom(hw.mem, w.c)
  {
    RestedSeen(hw.mem, Launch(hw, programs, initial, flag));
  }

  // ---- Every run without errors is an atomic run ----

  lemma ChipKeepsNoError(s: System, step: Step)
    requires NoError(s) && Next(s, step).Some? && (step.Port? ==> !step.fault)
    ensures NoError(Next(s, step).value)
  {
  }

  lemma PendingStays(s: System, step: Step)
    requires Next(s, step).Some? && !step.Request? && !step.Release?
    ensures var s' := Next(s, step).value;
            && |s'.threads| == |s.threads| && s'.log == s.log
            && forall i :: 0 <= i < |s.threads| ==> Pending(s'.threads[i]) == Pending(s.threads[i])
  {
  }

  lemma SamePending(ths: seq<Thread>, ths': seq<Thread>, todo: seq<seq<Task>>)
    requires |todo| == |ths| == |ths'|
    requires forall i :: 0 <= i < |ths| ==> Pending(ths'[i]) == Pending(ths[i])
    ensures Unfinished(ths', todo) == Unfinished(ths, todo)
  {
  }

  /** Steps that finish no batch are not seen. */
  lemma InsideIsUnseen(m: Memory, w: World, step: Step)
    requires HandlersInv(m, w) && NextMove(w, Chip(step)).Some? && !step.Release?
    requires HandlersInv(m, NextMove(w, Chip(step)).value)
    ensures Seen(m, NextMove(w, Chip(step)).value) == Seen(m, w)
  {
    PendingStays(w.s, step);
    SamePending(w.s.threads, Next(w.s, step).value.threads, w.c.todo);
  }

  /** What a finishing batch leaves. */
  lemma ReleasedLog(m: Memory, s: System, t: nat)
    requires LockInv(m, s) && NoError(s) && Next(s, Release(t)).Some?
    ensures var s' := Next(s, Release(t)).value;
            && LockInv(m, s') && Replay(m, s'.log) == MemAfter(Replay(m, s.log), s.threads[t].batch)
            && s'.threads == s.threads[t := Releasing]
  {
    var th, s' := s.threads[t], Next(s, Release(t)).value;
    StoppedEntry(Replay(m, s.log), s.hw, th, t);
    SerialExtend(m, s.log, EntryOf(t, th));
    ReleaseKeepsLockInv(m, s, t);
    assert s'.log == s.log + [EntryOf(t, th)] && th.batch[..th.done] == th.batch;
  }

  /** A finished batch leaves the unfinished part of its program. */
  lemma BatchLeaves(ths: seq<Thread>, todo: seq<seq<Task>>, t: nat)
    requires |todo| == |ths| && t < |ths| && ths[t].Running?
    ensures var u := Unfinished(ths, todo);
            && u[t] != [] && u[t][0] == Hardware(ths[t].batch)
            && Unfinished(ths[t := Releasing], todo) == u[t := u[t][1..]]
  {
    var u, u' := Unfinished(ths, todo), Unfinished(ths[t := Releasing], todo);
    assert u[t] == [Hardware(ths[t].batch)] + todo[t];
    assert u'[t] == todo[t] == u[t][1..];
    assert forall i :: 0 <= i < |todo| && i != t ==> u'[i] == u[i];
  }

  lemma ReleaseIsTurn(m: Memory, w: World, t: nat)
    requires HandlersInv(m, w) && NoError(w.s) && NextMove(w, Chip(Release(t))).Some?
    requires HandlersInv(m, NextMove(w, Chip(Release(t))).value)
    ensures Advance(Seen(m, w), t) == Some(Seen(m, NextMove(w, Chip(Release(t))).value))
  {
    ReleasedLog(m, w.s, t);
    BatchLeaves(w.s.threads, w.c.todo, t);
  }

  /** A batch that is asked for stays unfinished. */
  lemma BatchStays(ths: seq<Thread>, todo: seq<seq<Task>>, t: nat, b: Batch)
    requires |todo| == |ths| && t < |ths| && ths[t].Idle? && todo[t] != [] && todo[t][0] == Hardware(b)
    ensures Unfinished(ths[t := Waiting(b)], todo[t := todo[t][1..]]) == Unfinished(ths, todo)
  {
    var u, u' := Unfinished(ths, todo), Unfinished(ths[t := Waiting(b)], todo[t := todo[t][1..]]);
    assert u[t] == todo[t] == [Hardware(b)] + todo[t][1..] == u'[t];
    assert forall i :: 0 <= i < |todo| && i != t ==> u'[i] == u[i];
  }

  lemma BeginIsUnseen(m: Memory, w: World, t: nat)
    requires HandlersInv(m, w) && NextMove(w, Go(t)).Some? && w.c.todo[t][0].Hardware?
    requires HandlersInv(m, NextMove(w, Go(t)).value)
    ensures Seen(m, NextMove(w, Go(t)).value) == Seen(m, w)
  {
    BatchStays(w.s.threads, w.c.todo, t, w.c.todo[t][0].b);
  }

  lemma IdleRest(ths: seq<Thread>, todo: seq<seq<Task>>, t: nat, rest: seq<Task>)
    requires |todo| == |ths| && t < |ths| && ths[t].Idle?
    ensures Unfinished(ths, todo)[t] == todo[t]
    ensures Unfinished(ths, todo[t := rest]) == Unfinished(ths, todo)[t := rest]
  {
    assert Hardwares([]) + todo[t] == todo[t] && Hardwares([]) + rest == rest;
    var u, u' := Unfinished(ths, todo), Unfinished(ths, todo[t := rest]);
    assert forall i :: 0 <= i < |todo| && i != t ==> u'[i] == u[i];
  }

  /** A task does not look at other programs. */
  lemma LocalElsewhere(c: Shared, todo: seq<seq<Task>>, t: nat)
    requires t < |c.todo| == |todo| && c.todo[t] != [] && !c.todo[t][0].Hardware? && todo[t] == c.todo[t]
    ensures Local(c.(todo := todo), t) == Local(c, t).(todo := todo[t := OwnRest(c, t)])
    ensures Local(c, t).todo == c.todo[t := OwnRest(c, t)]
  {
  }

  lemma LocalIsTurn(m: Memory, w: World, t: nat)
    requires HandlersInv(m, w) && NextMove(w, Go(t)).Some? && !w.c.todo[t][0].Hardware?
    requires HandlersInv(m, NextMove(w, Go(t)).value)
    ensures Advance(Seen(m, w), t) == Some(Seen(m, NextMove(w, Go(t)).value))
  {
    IdleRest(w.s.threads, w.c.todo, t, OwnRest(w.c, t));
    LocalElsewhere(w.c, Unfinished(w.s.threads, w.c.todo), t);
  }

  /** What remains of the program after a task that is no batch. */
  function OwnRest(c: Shared, t: nat): seq<Task>
    requires t < |c.todo| && c.todo[t] != [] && !c.todo[t][0].Hardware?
  {
    match c.todo[t][0]
    case TryState => if c.guard.None? then c.todo[t][1..] else []
    case EnsureCustom(writes) => if c.flag then c.todo[t][1..] else TakeOver(writes) + c.todo[t][1..]
    case Store(_) => c.todo[t][1..]
    case DropState => c.todo[t][1..]
    case SetFlag(_) => c.todo[t][1..]
    case Ignore => c.todo[t][1..]
  }

  lemma {:induction false} NothingFailed(t: nat, log: seq<Entry>)
    requires forall i :: 0 <= i < |log| ==> log[i].ok
    ensures LastOk(t, log)
  {
    if log != [] {
      NothingFailed(t, log[..|log| - 1]);
    }
  }

  lemma MoveIsTurn(m: Memory, w: World, move: Move) returns (ts: seq<nat>)
    requires HandlersInv(m, w) && NoError(w.s) && NextMove(w, move).Some? && NoFault(move)
    ensures HandlersInv(m, NextMove(w, move).value) && NoError(NextMove(w, move).value.s)
    ensures Turns(Seen(m, w), ts) == Some(Seen(m, NextMove(w, move).value))
  {
    MoveKeepsInv(m, w, move);
    ts := [];
    match move {
      case Chip(step) =>
        ChipKeepsNoError(w.s, step);
        if step.Release? {
          ReleaseIsTurn(m, w, step.t);
          OneTurn(Seen(m, w), step.t);
          ts := [step.t];
        } else {
          InsideIsUnseen(m, w, step);
        }
      case Go(t) =>
        if w.c.todo[t][0].Hardware? {
          BeginIsUnseen(m, w, t);
        } else {
          LocalIsTurn(m, w, t);
          OneTurn(Seen(m, w), t);
          ts := [t];
        }
      case Abort(t) =>
        NothingFailed(t, w.s.log[w.since[t]..]);
        assert false;
    }
  }

  /**
   * Main result: whatever the scheduler does with the port steps, a run of the handlers without errors
   * is, as far as its finished batches go, a run in which every batch happens at once.
   */
  lemma {:induction false} EveryRunIsAtomic(m: Memory, w: World, ms: seq<Move>) returns (ts: seq<nat>)
    requires HandlersInv(m, w) && NoError(w.s) && RunMoves(w, ms).Some? && FaultFree(ms)
    ensures HandlersInv(m, RunMoves(w, ms).value) && NoError(RunMoves(w, ms).value.s)
    ensures Turns(Seen(m, w), ts) == Some(Seen(m, RunMoves(w, ms).value))
  {
    if ms == [] {
      ts := [];
    } else {
      var before := EveryRunIsAtomic(m, w, ms[..|ms| - 1]);
      var last := MoveIsTurn(m, RunMoves(w, ms[..|ms| - 1]).value, ms[|ms| - 1]);
      TurnsAppend(Seen(m, w), before, last);
      ts := before + last;
    }
  }

  // ---- Every atomic run happens ----

  lemma OneMove(w: World, m: Move)
    ensures RunMoves(w, [m]) == NextMove(w, m)
  {
    assert [m][..0] == [];
  }

  lemma {:induction false} MovesAppend(w: World, a: seq<Move>, b: seq<Move>)
    requires RunMoves(w, a).Some?
    ensures RunMoves(w, a + b) == RunMoves(RunMoves(w, a).value, b)
  {
    if b == [] {
      assert a + b == a;
    } else {
      MovesAppend(w, a, b[..|b| - 1]);
      assert (a + b)[..|a + b| - 1] == a + b[..|b| - 1];
    }
  }

  lemma FaultFreeAppend(a: seq<Move>, b: seq<Move>)
    requires FaultFree(a) && FaultFree(b)
    ensures FaultFree(a + b)
  {
  }

  function Chips(steps: seq<Step>): seq<Move> { seq(|steps|, i requires 0 <= i < |steps| => Chip(steps[i])) }

  lemma {:induction false} LiftChips(w: World, steps: seq<Step>)
    requires Quiet(steps) && EcSchedule.Run(w.s, steps).Some?
    ensures RunMoves(w, Chips(steps)) == Some(w.(s := EcSchedule.Run(w.s, steps).value)) && FaultFree(Chips(steps))
  {
    if steps != [] {
      LiftChips(w, steps[..|steps| - 1]);
      assert Chips(steps)[..|steps| - 1] == Chips(steps[..|steps| - 1]);
    }
  }

  lemma AskedFirst(s: System, steps: seq<Step>, t: nat, b: Batch)
    requires Does(steps, t, b) && EcSchedule.Run(s, steps).Some? && Next(s, Request(t, b)).Some?
    ensures EcSchedule.Run(s, steps) == EcSchedule.Run(Next(s, Request(t, b)).value, steps[1..])
  {
    assert steps == [Request(t, b)] + steps[1..];
    var first := Extend(s, [], Request(t, b));
    RunAppend(s, first, steps[1..]);
  }

  /** Handler `t` runs the batch at the head of its program from beginning to end. */
  lemma BatchAlone(m: Memory, w: World, t: nat) returns (ms: seq<Move>)
    requires Rested(m, w) && t < |w.c.todo| && w.c.todo[t] != [] && w.c.todo[t][0].Hardware?
    ensures FaultFree(ms) && RunMoves(w, ms).Some?
    ensures var w', b := RunMoves(w, ms).value, w.c.todo[t][0].b;
            && w' == w.(s := w'.s, c := w.c.(todo := w.c.todo[t := w.c.todo[t][1..]]))
            && LockInv(m, w'.s) && w'.s.holder.None? && w'.s.threads == w.s.threads
            && w'.s.log == w.s.log + [WholeEntry(Replay(m, w.s.log), t, b)]
  {
    var b := w.c.todo[t][0].b;
    var steps := RunAlone(m, w.s, t, b);
    AskedFirst(w.s, steps, t, b);
    OneMove(w, Go(t));
    NothingFailed(t, w.s.log[w.since[t]..]);
    var w1 := NextMove(w, Go(t)).value;
    LiftChips(w1, steps[1..]);
    MovesAppend(w, [Go(t)], Chips(steps[1..]));
    FaultFreeAppend([Go(t)], Chips(steps[1..]));
    ms := [Go(t)] + Chips(steps[1..]);
  }

  /** After a whole batch the handlers are rested again. */
  lemma RestedAgain(m: Memory, w: World, t: nat, b: Batch, s': System)
    requires Rested(m, w) && LockInv(m, s') && s'.holder.None? && s'.threads == w.s.threads
    requires s'.log == w.s.log + [WholeEntry(Replay(m, w.s.log), t, b)]
    requires t < |w.c.todo| && w.c.todo[t] != [] && w.c.todo[t][0].Hardware?
    ensures Rested(m, w.(s := s', c := w.c.(todo := w.c.todo[t := w.c.todo[t][1..]])))
  {
  }

  lemma BatchMemory(m: Memory, s: System, t: nat, b: Batch, s': System)
    requires LockInv(m, s) && LockInv(m, s') && s.holder.None? && s'.holder.None?
    requires s'.log == s.log + [WholeEntry(Replay(m, s.log), t, b)]
    ensures s'.hw.mem == MemAfter(s.hw.mem, b)
  {
    assert b[..|b|] == b;
    SerialExtend(m, s.log, WholeEntry(Replay(m, s.log), t, b));
  }

  lemma BatchTurnHappens(m: Memory, w: World, t: nat) returns (ms: seq<Move>)
    requires Rested(m, w) && t < |w.c.todo| && w.c.todo[t] != [] && w.c.todo[t][0].Hardware?
    ensures FaultFree(ms) && RunMoves(w, ms).Some? && Rested(m, RunMoves(w, ms).value)
    ensures Advance(Seen(m, w), t) == Some(Seen(m, RunMoves(w, ms).value))
  {
    ms := BatchAlone(m, w, t);
    var w', b := RunMoves(w, ms).value, w.c.todo[t][0].b;
    RestedAgain(m, w, t, b, w'.s);
    BatchMemory(m, w.s, t, b, w'.s);
    RestedSeen(m, w);
    RestedSeen(m, w');
  }

  lemma LocalTurnHappens(m: Memory, w: World, t: nat) returns (ms: seq<Move>)
    requires Rested(m, w) && t < |w.c.todo| && w.c.todo[t] != [] && !w.c.todo[t][0].Hardware?
    ensures FaultFree(ms) && RunMoves(w, ms).Some? && Rested(m, RunMoves(w, ms).value)
    ensures Advance(Seen(m, w), t) == Some(Seen(m, RunMoves(w, ms).value))
  {
    ms := [Go(t)];
    OneMove(w, Go(t));
    NothingFailed(t, w.s.log[w.since[t]..]);
    GoKeepsInv(m, w, t);
    LocalIsTurn(m, w, t);
  }

  lemma TurnHappens(m: Memory, w: World, t: nat) returns (ms: seq<Move>)
    requires Rested(m, w) && Advance(Seen(m, w), t).Some?
    ensures FaultFree(ms) && RunMoves(w, ms).Some? && Rested(m, RunMoves(w, ms).value)
    ensures Advance(Seen(m, w), t) == Some(Seen(m, RunMoves(w, ms).value))
  {
    RestedSeen(m, w);
    if w.c.todo[t][0].Hardware? {
      ms := BatchTurnHappens(m, w, t);
    } else {
      ms := LocalTurnHappens(m, w, t);
    }
  }

  /** And the converse: every run in which batches happen at once is such a run of port steps. */
  lemma {:induction false} EveryAtomicRunHappens(m: Memory, w: World, ts: seq<nat>) returns (ms: seq<Move>)
    requires Rested(m, w) && Turns(Seen(m, w), ts).Some?
    ensures FaultFree(ms) && RunMoves(w, ms).Some? && Rested(m, RunMoves(w, ms).value)
    ensures Turns(Seen(m, w), ts) == Some(Seen(m, RunMoves(w, ms).value))
  {
    if ts == [] {
      ms := [];
    } else {
      var before := EveryAtomicRunHappens(m, w, ts[..|ts| - 1]);
      var last := TurnHappens(m, RunMoves(w, before).value, ts[|ts| - 1]);
      MovesAppend(w, before, last);
      FaultFreeAppend(before, last);
      ms := before + last;
    }
  }

  // ---- Results of all runs ----

  ghost predicate Over(a: Atom) { forall u :: 0 <= u < |a.c.todo| ==> a.c.todo[u] == [] }

  /** A finished run from a fresh start, as an atomic run. */
  lemma DoneIsAtomic(hw: Hw, programs: seq<seq<Task>>, initial: ChargeLimit, flag: bool, ms: seq<Move>)
    returns (ts: seq<nat>)
    requires AllPaired(programs)
    requires FinishedRun(Launch(hw, programs, initial, flag), ms)
    ensures var w := Launch(hw, programs, initial, flag);
            var w' := RunMoves(w, ms).value;
            && Turns(Atom(hw.mem, w.c), ts) == Some(Atom(w'.s.hw.mem, w'.c)) && Over(Atom(w'.s.hw.mem, w'.c))
  {
    var w := Launch(hw, programs, initial, flag);
    LaunchIsRested(hw, programs, initial, flag);
    ts := EveryRunIsAtomic(hw.mem, w, ms);
    RestedSeen(hw.mem, RunMoves(w, ms).value);
  }

  lemma AtomicIsDone(hw: Hw, programs: seq<seq<Task>>, initial: ChargeLimit, flag: bool, ts: seq<nat>)
    returns (ms: seq<Move>)
    requires AllPaired(programs)
    requires var a := Atom(hw.mem, Launch(hw, programs, initial, flag).c);
             Turns(a, ts).Some? && Over(Turns(a, ts).value)
    ensures var w := Launch(hw, programs, initial, flag);
            && FinishedRun(w, ms)
            && Turns(Atom(hw.mem, w.c), ts)
               == Some(Atom(RunMoves(w, ms).value.s.hw.mem, RunMoves(w, ms).value.c))
  {
    var w := Launch(hw, programs, initial, flag);
    LaunchIsRested(hw, programs, initial, flag);
    ms := EveryAtomicRunHappens(hw.mem, w, ts);
    RestedSeen(hw.mem, RunMoves(w, ms).value);
  }

  // ---- Handlers that run on their own ----

  predicate Free(c: Shared, u: nat) { c.guard.None? || Held(c, u) }

  predicate NoStore(todo: seq<Task>) { forall k :: 0 <= k < |todo| ==> !todo[k].Store? }

  /** One turn of a handler that nobody keeps from the settings. */
  lemma AdvanceAlone(a: Atom, u: nat)
    requires u < |a.c.todo| && a.c.todo[u] != [] && Free(a.c, u) && Paired(a.c.todo[u], Held(a.c, u))
    ensures Advance(a, u).Some?
    ensures var a' := Advance(a, u).value;
            && |a'.c.todo| == |a.c.todo| && a'.c.todo == a.c.todo[u := a'.c.todo[u]]
            && Free(a'.c, u) && Paired(a'.c.todo[u], Held(a'.c, u)) && Weight(a'.c.todo[u]) < Weight(a.c.todo[u])
            && (NoStore(a.c.todo[u]) ==> NoStore(a'.c.todo[u]) && a'.c.remembered == a.c.remembered)
  {
    if a.c.todo[u][0].EnsureCustom? {
      var writes, rest := a.c.todo[u][0].writes, a.c.todo[u][1..];
      PlainThen(TakeOver(writes), rest, Held(a.c, u));
      TakeOverWeight(writes, rest);
    }
  }

  ghost predicate Only(u: nat, ts: seq<nat>) { forall i :: 0 <= i < |ts| ==> ts[i] == u }

  lemma TurnThen(a: Atom, u: nat, ts: seq<nat>)
    requires Advance(a, u).Some? && Only(u, ts)
    ensures Turns(a, [u] + ts) == Turns(Advance(a, u).value, ts) && Only(u, [u] + ts)
  {
    OneTurn(a, u);
    TurnsAppend(a, [u], ts);
  }

  /** It runs to its end. */
  lemma {:induction false} RunOut(a: Atom, u: nat) returns (ts: seq<nat>)
    requires u < |a.c.todo| && Free(a.c, u) && Paired(a.c.todo[u], Held(a.c, u))
    ensures Turns(a, ts).Some? && Only(u, ts)
    ensures var a' := Turns(a, ts).value;
            && a'.c.todo == a.c.todo[u := []] && a'.c.guard.None?
            && (NoStore(a.c.todo[u]) ==> a'.c.remembered == a.c.remembered)
    decreases Weight(a.c.todo[u])
  {
    if a.c.todo[u] == [] {
      ts := [];
    } else {
      AdvanceAlone(a, u);
      var rest := RunOut(Advance(a, u).value, u);
      TurnThen(a, u, rest);
      ts := [u] + rest;
    }
  }

  /** The handlers below `n` but those of `skip` have run to their ends, the others are where they were. */
  ghost predicate RanOut(c: Shared, c': Shared, n: nat, skip: set<nat>) {
    && c'.guard.None? && |c'.todo| == |c.todo|
    && forall k :: 0 <= k < |c.todo| ==> c'.todo[k] == if k < n && k !in skip then [] else c.todo[k]
  }

  lemma RanOutOneMore(c: Shared, c': Shared, c'': Shared, n: nat, skip: set<nat>)
    requires n < |c.todo| && RanOut(c, c', n, skip) && c''.guard.None?
    requires c''.todo == if n in skip then c'.todo else c'.todo[n := []]
    ensures RanOut(c, c'', n + 1, skip)
  {
  }

  /** The turns `ts` run them out, and remember nothing new if their programs store nothing. */
  ghost predicate RunsOut(a: Atom, n: nat, skip: set<nat>, ts: seq<nat>) {
    && Turns(a, ts).Some? && (forall i :: 0 <= i < |ts| ==> ts[i] < n && ts[i] !in skip)
    && RanOut(a.c, Turns(a, ts).value.c, n, skip)
    && (StoresNothing(a.c, n, skip) ==> Turns(a, ts).value.c.remembered == a.c.remembered)
  }

  ghost predicate StoresNothing(c: Shared, n: nat, skip: set<nat>) {
    forall k :: 0 <= k < n && k !in skip && k < |c.todo| ==> NoStore(c.todo[k])
  }

  lemma RunOutOneMore(a: Atom, n: nat, skip: set<nat>, before: seq<nat>) returns (ts: seq<nat>)
    requires n < |a.c.todo| && RunsOut(a, n, skip, before) && n !in skip && Paired(a.c.todo[n], false)
    ensures RunsOut(a, n + 1, skip, ts)
  {
    var mid := Turns(a, before).value;
    var last := RunOut(mid, n);
    TurnsAppend(a, before, last);
    ts := before + last;
    RanOutOneMore(a.c, mid.c, Turns(a, ts).value.c, n, skip);
  }

  lemma RunOutSkip(a: Atom, n: nat, skip: set<nat>, ts: seq<nat>)
    requires n < |a.c.todo| && RunsOut(a, n, skip, ts) && n in skip
    ensures RunsOut(a, n + 1, skip, ts)
  {
  }

  ghost predicate PairedBelow(c: Shared, n: nat, skip: set<nat>) {
    forall k :: 0 <= k < n && k !in skip && k < |c.todo| ==> Paired(c.todo[k], false)
  }

  lemma PairedBelowLess(c: Shared, n: nat, skip: set<nat>)
    requires PairedBelow(c, n + 1, skip) && n < |c.todo|
    ensures PairedBelow(c, n, skip) && (n !in skip ==> Paired(c.todo[n], false))
  {
  }

  /** One after the other. */
  lemma {:induction false} RunOutBelow(a: Atom, n: nat, skip: set<nat>) returns (ts: seq<nat>)
    requires n <= |a.c.todo| && a.c.guard.None? && PairedBelow(a.c, n, skip)
    ensures RunsOut(a, n, skip, ts)
  {
    if n == 0 {
      ts := [];
    } else {
      PairedBelowLess(a.c, n - 1, skip);
      ts := RunOutBelow(a, n - 1, skip);
      if n - 1 in skip {
        RunOutSkip(a, n - 1, skip, ts);
      } else {
        ts := RunOutOneMore(a, n - 1, skip, ts);
      }
    }
  }

  /** It runs until it has taken the settings. */
  lemma {:induction false} RunToLock(a: Atom, u: nat) returns (ts: seq<nat>)
    requires u < |a.c.todo| && a.c.guard.None? && Paired(a.c.todo[u], false) && TryState in a.c.todo[u]
    requires NoStore(a.c.todo[u])
    ensures Turns(a, ts).Some? && Only(u, ts)
    ensures var a' := Turns(a, ts).value;
            && |a'.c.todo| == |a.c.todo| && a'.c.todo == a.c.todo[u := a'.c.todo[u]] && a'.c.guard == Some(u)
            && Paired(a'.c.todo[u], true) && NoStore(a'.c.todo[u]) && a'.c.remembered == a.c.remembered
    decreases Weight(a.c.todo[u])
  {
    AdvanceAlone(a, u);
    var a1 := Advance(a, u).value;
    var rest := [];
    if !a.c.todo[u][0].TryState? {
      StillTries(a.c, u);
      rest := RunToLock(a1, u);
    }
    TurnThen(a, u, rest);
    ts := [u] + rest;
  }

  lemma StillTries(c: Shared, u: nat)
    requires u < |c.todo| && TryState in c.todo[u] && !c.todo[u][0].TryState?
    ensures TryState in c.todo[u][1..]
    ensures !c.todo[u][0].Hardware? ==> TryState in Local(c, u).todo[u]
  {
  }
}
