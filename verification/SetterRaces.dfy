/**
 * Overlapping `SetChargeLimit` requests: the limit is written under the I/O mutex and remembered under
 * the settings lock, so registers and settings can part ways (daemon/src/handlers.rs).
 */
module SetterRaces {
  import opened Bytes
  import opened EcPort
  import opened EcSchedule
  import opened EcRegs
  import opened EcActs
  import opened Settings
  import opened SharedPairs
  import opened Handlers
  import opened AtomicHandlers

  /** A handler sets a charge limit, or does something else. */
  datatype Handler = Setter(limit: ChargeLimit) | Other(tasks: seq<Task>)

  function Program(t: Table, h: Handler): seq<Task> {
    match h
    case Setter(limit) => SetProgram(t, limit)
    case Other(tasks) => tasks
  }

  function Programs(t: Table, hs: seq<Handler>): seq<seq<Task>> {
    seq(|hs|, i requires 0 <= i < |hs| => Program(t, hs[i]))
  }

  /** A batch of the daemon that does not set the charge limit. */
  ghost predicate Elsewhere(t: Table, b: Batch) {
    exists job :: Allowed(job) && !job.SetLimit? && b == BatchOf(t, job)
  }

  /** A task that neither applies nor remembers a charge limit. */
  ghost predicate Unrelated(t: Table, task: Task) {
    match task
    case Hardware(b) => Elsewhere(t, b)
    case EnsureCustom(writes) => forall i :: 0 <= i < |writes| ==> Elsewhere(t, writes[i])
    case Store(_) => false
    case _ => true
  }

  ghost predicate AllUnrelated(t: Table, todo: seq<Task>) {
    forall k :: 0 <= k < |todo| ==> Unrelated(t, todo[k])
  }

  /** Other handlers run the daemon's batches, try and drop the settings, and handle the LED flag. */
  ghost predicate Valid(t: Table, hs: seq<Handler>) {
    forall i :: 0 <= i < |hs| && hs[i].Other? ==>
      Paired(hs[i].tasks, false) && AllUnrelated(t, hs[i].tasks)
  }

  lemma WriteIsUnrelated(t: Table, reg: Reg, val: byte)
    requires Owner(reg) == Led
    ensures Elsewhere(t, BatchOf(t, WriteOne(reg, val))) && AllUnrelated(t, [WriteReg(t, reg, val)])
  {
    assert Allowed(WriteOne(reg, val));
  }

  lemma UnrelatedAppend(t: Table, p: seq<Task>, q: seq<Task>)
    requires AllUnrelated(t, p) && AllUnrelated(t, q)
    ensures AllUnrelated(t, p + q)
  {
  }

  lemma WritesAreUnrelated(t: Table, writes: seq<(Reg, byte)>)
    requires forall i :: 0 <= i < |writes| ==> Owner(writes[i].0) == Led
    ensures AllUnrelated(t, WriteRegs(t, writes))
  {
    forall i | 0 <= i < |writes|
      ensures Unrelated(t, WriteRegs(t, writes)[i])
    {
      assert Allowed(WriteOne(writes[i].0, writes[i].1));
    }
  }

  lemma EnsureIsUnrelated(t: Table)
    ensures AllUnrelated(t, EnsureCustomProgram(t)) && AllUnrelated(t, [Hardware(BatchOf(t, ResetEngine))])
  {
    WriteIsUnrelated(t, Bypass, 0x01);
    WriteIsUnrelated(t, A0Mux, 0x00);
    assert Allowed(ResetEngine) && Elsewhere(t, BatchOf(t, ResetEngine));
  }

  lemma LedIsUnrelated(t: Table, mode: PowerLedMode)
    ensures AllUnrelated(t, LedProgram(t, mode))
  {
    EnsureIsUnrelated(t);
    var reset := [Hardware(BatchOf(t, ResetEngine))];
    UnrelatedAppend(t, EnsureCustomProgram(t), reset);
    match mode {
      case Auto =>
        WriteIsUnrelated(t, Bypass, 0x00);
        UnrelatedAppend(t, [WriteReg(t, Bypass, 0x00)], reset);
        UnrelatedAppend(t, [WriteReg(t, Bypass, 0x00)] + reset, [SetFlag(false)]);
      case Custom(b) =>
        WriteIsUnrelated(t, LedDuty, b);
        UnrelatedAppend(t, EnsureCustomProgram(t) + reset, [WriteReg(t, LedDuty, b)]);
      case Animation(c) =>
        WritesAreUnrelated(t, LaunchWrites(c.StepByte(), c.DelayByte()));
        UnrelatedAppend(t, EnsureCustomProgram(t) + reset, LaunchProgram(t, c));
    }
  }

  /** For instance `set_led_mode`, which also tries the settings. */
  lemma LedHandlerIsValid(t: Table, mode: PowerLedMode)
    ensures Valid(t, [Handler.Other(LedHandler(t, mode))]) && Locks(Handler.Other(LedHandler(t, mode)))
  {
    ProgramsArePaired(t, FullCapacity, [], mode);
    LedIsUnrelated(t, mode);
    var p := LedHandler(t, mode);
    assert p[|p| - 2] == TryState;
  }

  lemma ProgramsPaired(t: Table, hs: seq<Handler>)
    requires Valid(t, hs)
    ensures AllPaired(Programs(t, hs))
  {
    forall i | 0 <= i < |hs|
      ensures Paired(Programs(t, hs)[i], false)
    {
      if hs[i].Setter? {
        SettersArePaired(t, hs[i].limit);
      }
    }
  }

  /** The registers hold the remembered limit. */
  ghost predicate Agree(t: Table, mem: Memory, remembered: ChargeLimit) {
    Limits(t, mem) == remembered.AsPercent()
  }

  function Begin(t: Table, hw: Hw, hs: seq<Handler>, initial: ChargeLimit, flag: bool): World {
    Launch(hw, Programs(t, hs), initial, flag)
  }

  ghost predicate AlwaysAgree(t: Table, hw: Hw, hs: seq<Handler>, initial: ChargeLimit, flag: bool) {
    forall ms :: FinishedRun(Begin(t, hw, hs, initial, flag), ms) ==>
      var w := RunMoves(Begin(t, hw, hs, initial, flag), ms).value; Agree(t, w.s.hw.mem, w.c.remembered)
  }

  // ---- One limit only ----

  /** Tasks of handlers of which those that set a limit set `l`. */
  ghost predicate Tame(t: Table, l: ChargeLimit, task: Task) {
    Unrelated(t, task) || task == Hardware(BatchOf(t, SetLimit(l))) || task == Store(l)
  }

  ghost predicate AllTame(t: Table, l: ChargeLimit, todo: seq<Task>) {
    forall k :: 0 <= k < |todo| ==> Tame(t, l, todo[k])
  }

  lemma TameRest(t: Table, l: ChargeLimit, a: Atom, v: nat)
    requires v < |a.c.todo| && a.c.todo[v] != [] && AllTame(t, l, a.c.todo[v])
    ensures var a' := Advance(a, v).value;
            a'.c.todo == a.c.todo[v := a'.c.todo[v]] && AllTame(t, l, a'.c.todo[v])
  {
    if a.c.todo[v][0].EnsureCustom? {
      assert Tame(t, l, a.c.todo[v][0]);
      var writes := a.c.todo[v][0].writes;
      forall i | 0 <= i < |writes|
        ensures Tame(t, l, TakeOver(writes)[i])
      {
        assert Elsewhere(t, writes[i]);
      }
    }
  }

  /** A batch leaves the pair alone or sets it to `l`. */
  lemma TameBatch(t: Table, l: ChargeLimit, m: Memory, b: Batch)
    requires Distinct(t) && Tame(t, l, Hardware(b))
    ensures Limits(t, MemAfter(m, b)) == if Elsewhere(t, b) then Limits(t, m) else l.AsPercent()
    ensures b == BatchOf(t, SetLimit(l)) ==> Limits(t, MemAfter(m, b)) == l.AsPercent()
  {
    if Elsewhere(t, b) {
      var job :| Allowed(job) && !job.SetLimit? && b == BatchOf(t, job);
      JobOnPair(t, m, job, LimitMin, LimitMax);
    }
    SetLimitSets(t, m, l);
  }

  /** While all handlers are tame: what is remembered, and what the registers hold once setter `u` has begun. */
  ghost predicate OneLimit(t: Table, l: ChargeLimit, initial: ChargeLimit, u: nat, a: Atom) {
    && u < |a.c.todo| && (forall v :: 0 <= v < |a.c.todo| ==> AllTame(t, l, a.c.todo[v]))
    && a.c.remembered in [initial, l]
    && (a.c.todo[u] == SetProgram(t, l) || Limits(t, a.mem) == l.AsPercent())
  }

  lemma TurnKeepsOneLimit(t: Table, l: ChargeLimit, initial: ChargeLimit, u: nat, a: Atom, v: nat)
    requires Distinct(t) && OneLimit(t, l, initial, u, a) && Advance(a, v).Some?
    ensures OneLimit(t, l, initial, u, Advance(a, v).value)
  {
    TameRest(t, l, a, v);
    TameMemory(t, l, a, v);
  }

  /** What a turn does to the registers and to what is remembered. */
  lemma TameMemory(t: Table, l: ChargeLimit, a: Atom, v: nat)
    requires Distinct(t) && v < |a.c.todo| && a.c.todo[v] != [] && Tame(t, l, a.c.todo[v][0])
    ensures var a' := Advance(a, v).value;
            && a'.c.remembered in [a.c.remembered, l]
            && (Limits(t, a'.mem) == Limits(t, a.mem) || Limits(t, a'.mem) == l.AsPercent())
            && (a.c.todo[v] == SetProgram(t, l) ==> Limits(t, a'.mem) == l.AsPercent())
  {
    if a.c.todo[v][0].Hardware? {
      TameBatch(t, l, a.mem, a.c.todo[v][0].b);
    }
  }

  lemma {:induction false} TurnsKeepOneLimit(t: Table, l: ChargeLimit, initial: ChargeLimit, u: nat, a: Atom,
          ts: seq<nat>)
    requires Distinct(t) && OneLimit(t, l, initial, u, a) && Turns(a, ts).Some?
    ensures OneLimit(t, l, initial, u, Turns(a, ts).value)
  {
    if ts != [] {
      TurnsKeepOneLimit(t, l, initial, u, a, ts[..|ts| - 1]);
      TurnKeepsOneLimit(t, l, initial, u, Turns(a, ts[..|ts| - 1]).value, ts[|ts| - 1]);
    }
  }

  // ---- Nobody else takes the settings ----

  predicate Locks(h: Handler) { h.Other? && TryState in h.tasks }

  predicate NobodyElseLocks(hs: seq<Handler>) { forall k :: 0 <= k < |hs| ==> !Locks(hs[k]) }

  function BeforeTry(l: ChargeLimit): seq<Task> { [TryState, Store(l), DropState] }

  function BeforeStore(l: ChargeLimit): seq<Task> { [Store(l), DropState] }

  predicate Keeping(l: ChargeLimit, todo: seq<Task>) { todo == BeforeStore(l) || todo == [DropState] }

  ghost predicate SetterStage(t: Table, l: ChargeLimit, todo: seq<Task>) {
    todo == SetProgram(t, l) || todo == BeforeTry(l) || Keeping(l, todo) || todo == []
  }

  predicate LocksNothing(todo: seq<Task>) {
    forall k :: 0 <= k < |todo| ==> Plain(todo[k])
  }

  /** Only setters hold the settings, and the first of them to get them remembers `l`. */
  ghost predicate SettersOnly(t: Table, l: ChargeLimit, hs: seq<Handler>, a: Atom) {
    && |a.c.todo| == |hs|
    && (forall v :: 0 <= v < |hs| ==>
          if hs[v].Setter? then SetterStage(t, l, a.c.todo[v]) else LocksNothing(a.c.todo[v]))
    && (a.c.guard.Some? ==> a.c.guard.value < |hs| && Keeping(l, a.c.todo[a.c.guard.value]))
    && (forall v :: 0 <= v < |hs| && hs[v].Setter? && Keeping(l, a.c.todo[v]) ==> Held(a.c, v))
    && (a.c.remembered == l || forall v :: 0 <= v < |hs| && hs[v].Setter? ==> NotYet(a.c, v))
  }

  /** Handler `v` has not come to remember its limit, or was refused while somebody else is about to. */
  predicate NotYet(c: Shared, v: nat)
    requires v < |c.todo|
  {
    c.todo[v] != [DropState] && (c.todo[v] == [] ==> c.guard.Some?)
  }

  lemma StagesUnfold(t: Table, l: ChargeLimit)
    ensures SetProgram(t, l)[1..] == BeforeTry(l) && BeforeTry(l)[1..] == BeforeStore(l)
    ensures BeforeStore(l)[1..] == [DropState] && [DropState][1..] == []
  {
  }

  lemma SetterApplies(t: Table, l: ChargeLimit, hs: seq<Handler>, a: Atom, v: nat)
    requires SettersOnly(t, l, hs, a) && v < |hs| && hs[v].Setter? && a.c.todo[v] == SetProgram(t, l)
    ensures SettersOnly(t, l, hs, Advance(a, v).value)
  {
    StagesUnfold(t, l);
  }

  lemma SetterTries(t: Table, l: ChargeLimit, hs: seq<Handler>, a: Atom, v: nat)
    requires SettersOnly(t, l, hs, a) && v < |hs| && hs[v].Setter? && a.c.todo[v] == BeforeTry(l)
    ensures SettersOnly(t, l, hs, Advance(a, v).value)
  {
    StagesUnfold(t, l);
  }

  lemma SetterKeeps(t: Table, l: ChargeLimit, hs: seq<Handler>, a: Atom, v: nat)
    requires SettersOnly(t, l, hs, a) && v < |hs| && hs[v].Setter? && Keeping(l, a.c.todo[v])
    ensures SettersOnly(t, l, hs, Advance(a, v).value)
  {
    StagesUnfold(t, l);
  }

  lemma SetterTurn(t: Table, l: ChargeLimit, hs: seq<Handler>, a: Atom, v: nat)
    requires SettersOnly(t, l, hs, a) && v < |hs| && hs[v].Setter? && Advance(a, v).Some?
    ensures SettersOnly(t, l, hs, Advance(a, v).value)
  {
    if a.c.todo[v] == SetProgram(t, l) {
      SetterApplies(t, l, hs, a, v);
    } else if a.c.todo[v] == BeforeTry(l) {
      SetterTries(t, l, hs, a, v);
    } else {
      SetterKeeps(t, l, hs, a, v);
    }
  }

  lemma PlainStep(a: Atom, v: nat)
    requires v < |a.c.todo| && a.c.todo[v] != [] && LocksNothing(a.c.todo[v])
    ensures var a' := Advance(a, v).value;
            && a'.c.todo == a.c.todo[v := a'.c.todo[v]] && LocksNothing(a'.c.todo[v])
            && a'.c.guard == a.c.guard && a'.c.remembered == a.c.remembered
  {
    assert Plain(a.c.todo[v][0]);
  }

  lemma LocksNothingKeepsNothing(l: ChargeLimit, todo: seq<Task>)
    requires LocksNothing(todo)
    ensures !Keeping(l, todo)
  {
    assert todo != [] ==> Plain(todo[0]);
  }

  /** Setters do not notice what another handler has left to do. */
  lemma PlainRest(t: Table, l: ChargeLimit, hs: seq<Handler>, a: Atom, v: nat, a': Atom)
    requires SettersOnly(t, l, hs, a) && v < |hs| && hs[v].Other?
    requires |a'.c.todo| == |hs| && LocksNothing(a'.c.todo[v])
    requires forall u :: 0 <= u < |hs| && u != v ==> a'.c.todo[u] == a.c.todo[u]
    requires a'.c.guard == a.c.guard && a'.c.remembered == a.c.remembered
    ensures SettersOnly(t, l, hs, a')
  {
    LocksNothingKeepsNothing(l, a.c.todo[v]);
  }

  lemma PlainTurn(t: Table, l: ChargeLimit, hs: seq<Handler>, a: Atom, v: nat)
    requires SettersOnly(t, l, hs, a) && v < |hs| && hs[v].Other? && Advance(a, v).Some?
    ensures SettersOnly(t, l, hs, Advance(a, v).value)
  {
    PlainStep(a, v);
    PlainRest(t, l, hs, a, v, Advance(a, v).value);
  }

  lemma {:induction false} TurnsKeepSettersOnly(t: Table, l: ChargeLimit, hs: seq<Handler>, a: Atom, ts: seq<nat>)
    requires SettersOnly(t, l, hs, a) && Turns(a, ts).Some?
    ensures SettersOnly(t, l, hs, Turns(a, ts).value)
  {
    if ts != [] {
      TurnsKeepSettersOnly(t, l, hs, a, ts[..|ts| - 1]);
      var v := ts[|ts| - 1];
      if hs[v].Setter? {
        SetterTurn(t, l, hs, Turns(a, ts[..|ts| - 1]).value, v);
      } else {
        PlainTurn(t, l, hs, Turns(a, ts[..|ts| - 1]).value, v);
      }
    }
  }

  // ---- No race, no disagreement ----

  ghost predicate AskFor(hs: seq<Handler>, l: ChargeLimit) {
    forall i :: 0 <= i < |hs| && hs[i].Setter? ==> hs[i].limit == l
  }

  function BeginAtom(t: Table, hw: Hw, hs: seq<Handler>, initial: ChargeLimit, flag: bool): Atom {
    Atom(hw.mem, Begin(t, hw, hs, initial, flag).c)
  }

  lemma BeginsWithOneLimit(t: Table, hw: Hw, hs: seq<Handler>, initial: ChargeLimit, flag: bool, l: ChargeLimit, u: nat)
    requires Valid(t, hs) && AskFor(hs, l) && u < |hs| && hs[u].Setter?
    ensures OneLimit(t, l, initial, u, BeginAtom(t, hw, hs, initial, flag))
  {
    forall v | 0 <= v < |hs|
      ensures AllTame(t, l, Program(t, hs[v]))
    {
    }
  }

  lemma {:induction false} WithoutTrying(todo: seq<Task>)
    requires Paired(todo, false) && TryState !in todo
    ensures LocksNothing(todo)
  {
    if todo != [] {
      WithoutTrying(todo[1..]);
      assert Plain(todo[0]);
      forall k | 0 <= k < |todo|
        ensures Plain(todo[k])
      {
        if k > 0 {
          assert todo[k] == todo[1..][k - 1];
        }
      }
    }
  }

  lemma BeginsWithSettersOnly(t: Table, hw: Hw, hs: seq<Handler>, initial: ChargeLimit, flag: bool, l: ChargeLimit)
    requires Valid(t, hs) && AskFor(hs, l) && NobodyElseLocks(hs)
    ensures SettersOnly(t, l, hs, BeginAtom(t, hw, hs, initial, flag))
  {
    forall v | 0 <= v < |hs| && hs[v].Other?
      ensures LocksNothing(hs[v].tasks)
    {
      assert !Locks(hs[v]);
      WithoutTrying(hs[v].tasks);
    }
  }

  /** The end of a run in which all setters ask for `l`. */
  lemma OneLimitAgrees(t: Table, hw: Hw, hs: seq<Handler>, initial: ChargeLimit, flag: bool, l: ChargeLimit, u: nat,
          ms: seq<Move>)
    requires Distinct(t) && Valid(t, hs) && AskFor(hs, l) && u < |hs| && hs[u].Setter?
    requires NobodyElseLocks(hs) || l == initial
    requires FinishedRun(Begin(t, hw, hs, initial, flag), ms)
    ensures var w := RunMoves(Begin(t, hw, hs, initial, flag), ms).value; Agree(t, w.s.hw.mem, w.c.remembered)
  {
    ProgramsPaired(t, hs);
    var a0 := BeginAtom(t, hw, hs, initial, flag);
    var ts := DoneIsAtomic(hw, Programs(t, hs), initial, flag, ms);
    BeginsWithOneLimit(t, hw, hs, initial, flag, l, u);
    TurnsKeepOneLimit(t, l, initial, u, a0, ts);
    if NobodyElseLocks(hs) {
      BeginsWithSettersOnly(t, hw, hs, initial, flag, l);
      TurnsKeepSettersOnly(t, l, hs, a0, ts);
      OneOfThemRemembers(t, l, hs, Turns(a0, ts).value, u);
    }
  }

  lemma OneOfThemRemembers(t: Table, l: ChargeLimit, hs: seq<Handler>, a: Atom, u: nat)
    requires SettersOnly(t, l, hs, a) && Over(a) && u < |hs| && hs[u].Setter?
    ensures a.c.remembered == l
  {
    assert a.c.todo[u] == [];
  }

  // ---- Two limits ----

  /** A setter's batch. */
  lemma ApplyTurn(t: Table, a: Atom, u: nat, l: ChargeLimit)
    requires Distinct(t) && u < |a.c.todo| && a.c.todo[u] == SetProgram(t, l)
    ensures Turns(a, [u]).Some?
    ensures var a' := Turns(a, [u]).value;
            a'.c == a.c.(todo := a.c.todo[u := BeforeTry(l)]) && Limits(t, a'.mem) == l.AsPercent()
  {
    OneTurn(a, u);
    SetLimitSets(t, a.mem, l);
    StagesUnfold(t, l);
  }

  /** What a setter does under the settings lock. */
  lemma KeepTurns(t: Table, a: Atom, u: nat, l: ChargeLimit)
    requires u < |a.c.todo| && a.c.todo[u] == BeforeStore(l) && a.c.guard == Some(u)
    ensures Turns(a, [u, u]) == Some(a.(c := a.c.(todo := a.c.todo[u := []], guard := None, remembered := l,
                                                  stores := a.c.stores + [(u, l)])))
  {
    StagesUnfold(t, l);
    var a1 := a.(c := a.c.(todo := a.c.todo[u := [DropState]], remembered := l, stores := a.c.stores + [(u, l)]));
    assert Advance(a, u) == Some(a1);
    OneTurn(a, u);
    OneTurn(a1, u);
    TurnsAppend(a, [u], [u]);
    assert [u] + [u] == [u, u] && a1.c.todo[u := []] == a.c.todo[u := []];
  }

  lemma RememberTurns(t: Table, a: Atom, u: nat, l: ChargeLimit)
    requires u < |a.c.todo| && a.c.todo[u] == BeforeTry(l) && a.c.guard.None?
    ensures Turns(a, [u] + [u, u]) == Some(a.(c := a.c.(todo := a.c.todo[u := []], remembered := l,
                                                       stores := a.c.stores + [(u, l)])))
  {
    StagesUnfold(t, l);
    var a1 := a.(c := a.c.(todo := a.c.todo[u := BeforeStore(l)], guard := Some(u)));
    assert Advance(a, u) == Some(a1);
    OneTurn(a, u);
    TurnsAppend(a, [u], [u, u]);
    KeepTurns(t, a1, u, l);
    assert a1.c.todo[u := []] == a.c.todo[u := []];
  }

  lemma RefuseTurn(t: Table, a: Atom, u: nat, l: ChargeLimit)
    requires u < |a.c.todo| && a.c.todo[u] == BeforeTry(l) && a.c.guard.Some?
    ensures Turns(a, [u]) == Some(a.(c := a.c.(todo := a.c.todo[u := []])))
  {
    OneTurn(a, u);
  }

  /** Both setters have run their batches, `j` after `i`. */
  lemma BothApply(t: Table, a: Atom, i: nat, j: nat, li: ChargeLimit, lj: ChargeLimit) returns (ts: seq<nat>)
    requires Distinct(t) && i < |a.c.todo| && j < |a.c.todo| && i != j
    requires a.c.todo[i] == SetProgram(t, li) && a.c.todo[j] == SetProgram(t, lj)
    ensures Turns(a, ts).Some?
    ensures var a' := Turns(a, ts).value;
            && a'.c == a.c.(todo := a.c.todo[i := BeforeTry(li)][j := BeforeTry(lj)])
            && Limits(t, a'.mem) == lj.AsPercent()
  {
    ApplyTurn(t, a, i, li);
    var a1 := Turns(a, [i]).value;
    ApplyTurn(t, a1, j, lj);
    TurnsAppend(a, [i], [j]);
    ts := [i] + [j];
  }

  /** `j` applies last and remembers first. */
  lemma SettersCross(t: Table, a: Atom, i: nat, j: nat, li: ChargeLimit, lj: ChargeLimit) returns (ts: seq<nat>)
    requires Distinct(t) && i < |a.c.todo| && j < |a.c.todo| && i != j && a.c.guard.None?
    requires a.c.todo[i] == SetProgram(t, li) && a.c.todo[j] == SetProgram(t, lj)
    ensures Turns(a, ts).Some?
    ensures var a' := Turns(a, ts).value;
            && a'.c == a.c.(todo := a.c.todo[i := []][j := []], remembered := li,
                            stores := a.c.stores + [(j, lj), (i, li)])
            && Limits(t, a'.mem) == lj.AsPercent()
  {
    var both := BothApply(t, a, i, j, li, lj);
    var a1 := Turns(a, both).value;
    RememberTurns(t, a1, j, lj);
    TurnsAppend(a, both, [j] + [j, j]);
    var a2 := Turns(a1, [j] + [j, j]).value;
    RememberTurns(t, a2, i, li);
    TurnsAppend(a, both + ([j] + [j, j]), [i] + [i, i]);
    ts := both + ([j] + [j, j]) + ([i] + [i, i]);
    assert a2.c.todo[i := []] == a.c.todo[i := []][j := []];
    Associate(a.c.stores, [(j, lj)], [(i, li)]);
    assert [(j, lj)] + [(i, li)] == [(j, lj), (i, li)];
  }

  /** A run of fresh handlers ends with registers and settings apart. */
  ghost predicate Apart(t: Table, hw: Hw, hs: seq<Handler>, initial: ChargeLimit, flag: bool, ms: seq<Move>) {
    && FinishedRun(Begin(t, hw, hs, initial, flag), ms)
    && var w := RunMoves(Begin(t, hw, hs, initial, flag), ms).value; !Agree(t, w.s.hw.mem, w.c.remembered)
  }

  lemma AtomicallyApart(t: Table, hw: Hw, hs: seq<Handler>, initial: ChargeLimit, flag: bool, ts: seq<nat>,
          applied: ChargeLimit)
    returns (ms: seq<Move>)
    requires Valid(t, hs) && Turns(BeginAtom(t, hw, hs, initial, flag), ts).Some?
    requires var a := Turns(BeginAtom(t, hw, hs, initial, flag), ts).value;
             Over(a) && Limits(t, a.mem) == applied.AsPercent() && a.c.remembered != applied
    ensures Apart(t, hw, hs, initial, flag, ms)
  {
    ProgramsPaired(t, hs);
    ms := AtomicIsDone(hw, Programs(t, hs), initial, flag, ts);
    HalvesIdentifyTheLimit(applied, Turns(BeginAtom(t, hw, hs, initial, flag), ts).value.c.remembered);
  }

  /** When everybody else is done, setters `i` and `j` cross. */
  lemma LastTwoCross(t: Table, hs: seq<Handler>, a: Atom, i: nat, j: nat) returns (ts: seq<nat>)
    requires Distinct(t) && i < |hs| && j < |hs| && i != j && hs[i].Setter? && hs[j].Setter?
    requires a.c.guard.None? && a.c.todo == Programs(t, hs) && AllPaired(a.c.todo)
    ensures Turns(a, ts).Some? && Over(Turns(a, ts).value)
    ensures Limits(t, Turns(a, ts).value.mem) == hs[j].limit.AsPercent()
    ensures Turns(a, ts).value.c.remembered == hs[i].limit
  {
    var others := RunOutBelow(a, |hs|, {i, j});
    var a1 := Turns(a, others).value;
    assert a1.c.todo[i] == a.c.todo[i] && a1.c.todo[j] == a.c.todo[j];
    var cross := SettersCross(t, a1, i, j, hs[i].limit, hs[j].limit);
    TurnsAppend(a, others, cross);
    ts := others + cross;
    forall k | 0 <= k < |hs|
      ensures Turns(a1, cross).value.c.todo[k] == []
    {
      assert k != i && k != j ==> a1.c.todo[k] == [];
    }
  }

  /** Handlers `i` and `j` set different limits. */
  lemma TwoLimitsRace(t: Table, hw: Hw, hs: seq<Handler>, initial: ChargeLimit, flag: bool, i: nat, j: nat)
    returns (ms: seq<Move>)
    requires Distinct(t) && Valid(t, hs) && i < |hs| && j < |hs| && hs[i].Setter? && hs[j].Setter?
    requires hs[i].limit != hs[j].limit
    ensures Apart(t, hw, hs, initial, flag, ms)
  {
    ProgramsPaired(t, hs);
    var ts := LastTwoCross(t, hs, BeginAtom(t, hw, hs, initial, flag), i, j);
    ms := AtomicallyApart(t, hw, hs, initial, flag, ts, hs[j].limit);
  }

  // ---- Somebody else keeps the settings ----

  /** The setters below `n` apply their limits and are refused, because handler `o` has the settings. */
  lemma {:induction false} RefuseBelow(t: Table, hs: seq<Handler>, a: Atom, n: nat, l: ChargeLimit)
    returns (ts: seq<nat>)
    requires Distinct(t) && n <= |hs| == |a.c.todo| && a.c.guard.Some?
    requires forall v :: 0 <= v < n && hs[v].Setter? ==> a.c.todo[v] == SetProgram(t, l)
    ensures Turns(a, ts).Some?
    ensures var a' := Turns(a, ts).value;
            && |a'.c.todo| == |hs| && a'.c.guard == a.c.guard && a'.c.remembered == a.c.remembered
            && forall v :: 0 <= v < |hs| ==> a'.c.todo[v] == if v < n && hs[v].Setter? then [] else a.c.todo[v]
  {
    if n == 0 {
      ts := [];
    } else {
      ts := RefuseBelow(t, hs, a, n - 1, l);
      if hs[n - 1].Setter? {
        var last := RefuseOne(t, Turns(a, ts).value, n - 1, l);
        TurnsAppend(a, ts, last);
        ts := ts + last;
      }
    }
  }

  lemma RefuseOne(t: Table, a: Atom, u: nat, l: ChargeLimit) returns (ts: seq<nat>)
    requires Distinct(t) && u < |a.c.todo| && a.c.todo[u] == SetProgram(t, l) && a.c.guard.Some?
    ensures Turns(a, ts).Some? && Turns(a, ts).value.c == a.c.(todo := a.c.todo[u := []])
  {
    ApplyTurn(t, a, u, l);
    var a1 := Turns(a, [u]).value;
    RefuseTurn(t, a1, u, l);
    TurnsAppend(a, [u], [u]);
    ts := [u] + [u];
    assert a1.c.todo[u := []] == a.c.todo[u := []];
  }

  function Setters(hs: seq<Handler>): set<nat> { set k: nat | k < |hs| && hs[k].Setter? }

  lemma OthersStoreNothing(t: Table, hs: seq<Handler>, k: nat)
    requires Valid(t, hs) && k < |hs| && hs[k].Other?
    ensures NoStore(hs[k].tasks) && Paired(hs[k].tasks, false)
  {
    forall j | 0 <= j < |hs[k].tasks|
      ensures !hs[k].tasks[j].Store?
    {
      assert Unrelated(t, hs[k].tasks[j]);
    }
  }

  /** All handlers but `o` and the setters run to their ends, then `o` takes the settings. */
  lemma OneTakesTheSettings(t: Table, hs: seq<Handler>, a: Atom, o: nat) returns (ts: seq<nat>)
    requires Valid(t, hs) && a.c.guard.None? && a.c.todo == Programs(t, hs) && o < |hs| && Locks(hs[o])
    ensures Turns(a, ts).Some?
    ensures var a' := Turns(a, ts).value;
            && |a'.c.todo| == |hs| && a'.c.guard == Some(o) && a'.c.remembered == a.c.remembered
            && Paired(a'.c.todo[o], true) && NoStore(a'.c.todo[o])
            && forall v :: 0 <= v < |hs| && v != o ==> a'.c.todo[v] == if hs[v].Setter? then a.c.todo[v] else []
  {
    forall k | 0 <= k < |hs| && hs[k].Other?
      ensures NoStore(a.c.todo[k]) && Paired(a.c.todo[k], false)
    {
      OthersStoreNothing(t, hs, k);
    }
    var others := RunOutBelow(a, |hs|, Setters(hs) + {o});
    var a1 := Turns(a, others).value;
    assert a1.c.todo[o] == hs[o].tasks;
    var lock := RunToLock(a1, o);
    TurnsAppend(a, others, lock);
    ts := others + lock;
  }

  lemma RefusedByOther(t: Table, hs: seq<Handler>, a: Atom, o: nat, l: ChargeLimit) returns (ts: seq<nat>)
    requires Distinct(t) && Valid(t, hs) && a.c.guard.None? && a.c.todo == Programs(t, hs)
    requires o < |hs| && Locks(hs[o]) && AskFor(hs, l)
    ensures Turns(a, ts).Some? && Over(Turns(a, ts).value) && Turns(a, ts).value.c.remembered == a.c.remembered
  {
    var lock := OneTakesTheSettings(t, hs, a, o);
    var a1 := Turns(a, lock).value;
    var refuse := RefuseBelow(t, hs, a1, |hs|, l);
    TurnsAppend(a, lock, refuse);
    var a2 := Turns(a1, refuse).value;
    var rest := RunOut(a2, o);
    TurnsAppend(a, lock + refuse, rest);
    ts := lock + refuse + rest;
  }

  /** Handler `o` tries the settings, and setter `u` asks for another limit than the remembered one. */
  lemma LockedOutRace(t: Table, hw: Hw, hs: seq<Handler>, initial: ChargeLimit, flag: bool, o: nat, u: nat)
    returns (ms: seq<Move>)
    requires Distinct(t) && Valid(t, hs) && o < |hs| && Locks(hs[o])
    requires u < |hs| && hs[u].Setter? && AskFor(hs, hs[u].limit) && hs[u].limit != initial
    ensures Apart(t, hw, hs, initial, flag, ms)
  {
    var a, l := BeginAtom(t, hw, hs, initial, flag), hs[u].limit;
    var ts := RefusedByOther(t, hs, a, o, l);
    BeginsWithOneLimit(t, hw, hs, initial, flag, l, u);
    TurnsKeepOneLimit(t, l, initial, u, a, ts);
    ms := AtomicallyApart(t, hw, hs, initial, flag, ts, l);
  }

  // ---- Exactly when they can part ways ----

  /**
   * Main result, for any number of handlers, any scheduler and no errors: registers and settings are
   * sure to agree in the end exactly when all setters ask for one limit, and either nobody else tries
   * the settings or that limit is remembered already.
   */
  lemma {:induction false} SettersAgreeIff(t: Table, hw: Hw, hs: seq<Handler>, initial: ChargeLimit, flag: bool, u: nat)
    requires Distinct(t) && Valid(t, hs) && u < |hs| && hs[u].Setter?
    ensures AlwaysAgree(t, hw, hs, initial, flag)
            <==> AskFor(hs, hs[u].limit) && (NobodyElseLocks(hs) || hs[u].limit == initial)
  {
    var l := hs[u].limit;
    if !AskFor(hs, l) {
      var j :| 0 <= j < |hs| && hs[j].Setter? && hs[j].limit != l;
      var ms := TwoLimitsRace(t, hw, hs, initial, flag, u, j);
    } else if !NobodyElseLocks(hs) && l != initial {
      var o :| 0 <= o < |hs| && Locks(hs[o]);
      var ms := LockedOutRace(t, hw, hs, initial, flag, o, u);
    } else {
      forall ms | FinishedRun(Begin(t, hw, hs, initial, flag), ms)
        ensures var w := RunMoves(Begin(t, hw, hs, initial, flag), ms).value; Agree(t, w.s.hw.mem, w.c.remembered)
      {
        OneLimitAgrees(t, hw, hs, initial, flag, l, u, ms);
      }
    }
  }

  // ---- Two of them ----

  lemma TwoPrograms(t: Table, a: ChargeLimit, b: ChargeLimit)
    ensures Programs(t, [Setter(a), Setter(b)]) == [SetProgram(t, a), SetProgram(t, b)]
    ensures AllPaired(Programs(t, [Setter(a), Setter(b)]))
  {
    SettersArePaired(t, a);
    SettersArePaired(t, b);
  }

  /**
   * Two `SetChargeLimit` requests that overlap can both be answered with success, without any error,
   * and leave the limit of one in the registers and the limit of the other in the settings.
   */
  lemma OverlappingSettersDiverge(t: Table, hw: Hw, initial: ChargeLimit, a: ChargeLimit, b: ChargeLimit)
    returns (ms: seq<Move>)
    requires Distinct(t)
    ensures FinishedRun(Begin(t, hw, [Setter(a), Setter(b)], initial, false), ms)
    ensures var w := RunMoves(Begin(t, hw, [Setter(a), Setter(b)], initial, false), ms).value;
            && w.c.stores == [(1, b), (0, a)] && w.c.remembered == a && Limits(t, w.s.hw.mem) == b.AsPercent()
  {
    var hs := [Setter(a), Setter(b)];
    TwoPrograms(t, a, b);
    var a0 := BeginAtom(t, hw, hs, initial, false);
    var ts := SettersCross(t, a0, 0, 1, a, b);
    assert a0.c.stores + [(1, b), (0, a)] == [(1, b), (0, a)];
    assert Turns(a0, ts).value.c.todo == [[], []];
    ms := AtomicIsDone(hw, Programs(t, hs), initial, false, ts);
  }

  /**
   * And a `SetChargeLimit` request that finds the settings locked fails after its writes: the registers
   * have the new limit, the settings the one of the handler that held them.
   */
  lemma RefusedSetterLeavesItsWrites(t: Table, hw: Hw, initial: ChargeLimit, a: ChargeLimit, b: ChargeLimit)
    returns (ms: seq<Move>)
    requires Distinct(t)
    ensures FinishedRun(Begin(t, hw, [Setter(a), Setter(b)], initial, false), ms)
    ensures var w := RunMoves(Begin(t, hw, [Setter(a), Setter(b)], initial, false), ms).value;
            && w.c.stores == [(0, a)] && w.c.remembered == a && Limits(t, w.s.hw.mem) == b.AsPercent()
  {
    var hs := [Setter(a), Setter(b)];
    TwoPrograms(t, a, b);
    var a0 := BeginAtom(t, hw, hs, initial, false);
    var both := BothApply(t, a0, 0, 1, a, b);
    var a1 := Turns(a0, both).value;
    assert a1.c.todo == [BeforeTry(a), BeforeTry(b)];
    var rest := TryInTheMiddle(t, a1, a, b);
    TurnsAppend(a0, both, rest);
    ms := AtomicIsDone(hw, Programs(t, hs), initial, false, both + rest);
  }

  /** Handler 0 holds the settings when handler 1 tries them. */
  lemma TryInTheMiddle(t: Table, a1: Atom, a: ChargeLimit, b: ChargeLimit) returns (ts: seq<nat>)
    requires a1.c.todo == [BeforeTry(a), BeforeTry(b)] && a1.c.guard.None? && a1.c.stores == []
    ensures Turns(a1, ts) == Some(a1.(c := a1.c.(todo := [[], []], remembered := a, stores := [(0, a)])))
  {
    StagesUnfold(t, a);
    var a2 := a1.(c := a1.c.(todo := [BeforeStore(a), BeforeTry(b)], guard := Some(0)));
    assert a1.c.todo[0 := BeforeStore(a)] == a2.c.todo;
    assert Advance(a1, 0) == Some(a2);
    OneTurn(a1, 0);
    RefuseTurn(t, a2, 1, b);
    TurnsAppend(a1, [0], [1]);
    var a3 := Turns(a2, [1]).value;
    KeepTurns(t, a3, 0, a);
    TurnsAppend(a1, [0] + [1], [0, 0]);
    ts := [0] + [1] + [0, 0];
    assert a3.c.todo[0 := []] == [[], []] && a3.c.stores + [(0, a)] == [(0, a)];
  }
}
