/**
 * Overlapping `apply_led_mode` calls. The flag that says whether bypass and multiplexer hold the
 * take-over is loaded and stored outside the I/O mutex, so it can end up set over a cleared bypass
 * (daemon/src/ec/hw/led.rs).
 */
module LedRaces {
  import opened Bytes
  import opened EcPort
  import opened EcSchedule
  import opened EcRegs
  import opened EcActs
  import opened Settings
  import opened SharedPairs
  import opened Handlers
  import opened AtomicHandlers

  /** A handler applies an LED mode, or none, and then does something else. */
  datatype Handler = Handler(mode: Option<PowerLedMode>, rest: seq<Task>)

  function Program(t: Table, h: Handler): seq<Task> {
    (match h.mode case Some(mode) => LedProgram(t, mode) case None => []) + h.rest
  }

  function Programs(t: Table, hs: seq<Handler>): seq<seq<Task>> {
    seq(|hs|, i requires 0 <= i < |hs| => Program(t, hs[i]))
  }

  // ---- The two registers ----

  function Bypassed(t: Table, m: Memory): byte { m[t(Bypass)] }

  function Muxed(t: Table, m: Memory): byte { m[t(A0Mux)] }

  predicate TakenOver(t: Table, m: Memory) { Bypassed(t, m) == 1 && Muxed(t, m) == 0 }

  predicate Sound(t: Table, a: Atom) { a.c.flag ==> TakenOver(t, a.mem) }

  /** A batch that writes neither register. */
  ghost predicate Away(t: Table, b: Batch) { NeverPokes(b, t(Bypass)) && NeverPokes(b, t(A0Mux)) }

  ghost predicate Neutral(t: Table, task: Task) {
    match task
    case Hardware(b) => Away(t, b)
    case EnsureCustom(_) => false
    case SetFlag(_) => false
    case _ => true
  }

  ghost predicate AllNeutral(t: Table, todo: seq<Task>) { forall k :: 0 <= k < |todo| ==> Neutral(t, todo[k]) }

  ghost predicate Valid(t: Table, hs: seq<Handler>) {
    forall i :: 0 <= i < |hs| ==> Paired(hs[i].rest, false) && AllNeutral(t, hs[i].rest)
  }

  lemma AwayLeaves(t: Table, m: Memory, b: Batch)
    requires Away(t, b)
    ensures Bypassed(t, MemAfter(m, b)) == Bypassed(t, m) && Muxed(t, MemAfter(m, b)) == Muxed(t, m)
  {
    OpsLeave(m, b, t(Bypass));
    OpsLeave(m, b, t(A0Mux));
  }

  lemma WriteOneSets(t: Table, m: Memory, reg: Reg, val: byte)
    ensures MemAfter(m, BatchOf(t, WriteOne(reg, val))) == m[t(reg) := val]
  {
    var b := [Poke(t(reg), val)];
    assert b[..0] == [] && MemAfter(m, []) == m;
  }

  lemma OtherWritesAreNeutral(t: Table, reg: Reg, val: byte)
    requires Distinct(t) && reg != Bypass && reg != A0Mux
    ensures Neutral(t, WriteReg(t, reg, val))
  {
  }

  lemma ResetIsAway(t: Table)
    requires Distinct(t)
    ensures Away(t, BatchOf(t, ResetEngine))
  {
  }

  // ---- The programs, task by task ----

  function W0(t: Table): Task { WriteReg(t, Bypass, 0x00) }

  function W1(t: Table): Task { WriteReg(t, Bypass, 0x01) }

  function M0(t: Table): Task { WriteReg(t, A0Mux, 0x00) }

  function Reset(t: Table): Task { Hardware(BatchOf(t, ResetEngine)) }

  function Ensure(t: Table): Task { EnsureCustomProgram(t)[0] }

  /** What follows the take-over. */
  function Engine(t: Table, mode: PowerLedMode): seq<Task> {
    match mode
    case Auto => []
    case Custom(b) => [Reset(t), WriteReg(t, LedDuty, b)]
    case Animation(c) => [Reset(t)] + LaunchProgram(t, c)
  }

  ghost predicate PlainAway(t: Table, todo: seq<Task>) {
    forall k :: 0 <= k < |todo| ==> Neutral(t, todo[k]) && Plain(todo[k])
  }

  lemma WritesAreAway(t: Table, writes: seq<(Reg, byte)>)
    requires Distinct(t) && forall i :: 0 <= i < |writes| ==> writes[i].0 != Bypass && writes[i].0 != A0Mux
    ensures PlainAway(t, WriteRegs(t, writes))
  {
    forall i | 0 <= i < |writes|
      ensures Neutral(t, WriteRegs(t, writes)[i])
    {
      OtherWritesAreNeutral(t, writes[i].0, writes[i].1);
    }
  }

  lemma EngineIsNeutral(t: Table, mode: PowerLedMode)
    requires Distinct(t)
    ensures PlainAway(t, Engine(t, mode))
  {
    ResetIsAway(t);
    match mode {
      case Auto =>
      case Custom(b) => OtherWritesAreNeutral(t, LedDuty, b);
      case Animation(c) => WritesAreAway(t, LaunchWrites(c.StepByte(), c.DelayByte()));
    }
  }

  lemma TakeOverIs(t: Table)
    ensures TakeOver(Ensure(t).writes) == [W1(t), M0(t), SetFlag(true)]
  {
  }

  lemma AutoProgramIs(t: Table)
    ensures LedProgram(t, PowerLedMode.Auto) == [W0(t), Reset(t), SetFlag(false)]
  {
  }

  lemma OtherProgramIs(t: Table, mode: PowerLedMode)
    requires !mode.Auto?
    ensures LedProgram(t, mode) == [Ensure(t)] + Engine(t, mode)
  {
    var ensure := EnsureCustomProgram(t);
    assert ensure == [Ensure(t)];
    match mode {
      case Custom(b) => Associate(ensure, [Reset(t)], [WriteReg(t, LedDuty, b)]);
      case Animation(c) => Associate(ensure, [Reset(t)], LaunchProgram(t, c));
    }
  }

  // ---- Single turns ----

  lemma NeutralTurn(t: Table, a: Atom, v: nat)
    requires v < |a.c.todo| && a.c.todo[v] != [] && Neutral(t, a.c.todo[v][0])
    ensures var a' := Advance(a, v).value;
            && a'.c.todo == a.c.todo[v := a'.c.todo[v]] && (a'.c.todo[v] == [] || a'.c.todo[v] == a.c.todo[v][1..])
            && (a.c.todo[v][0].Hardware? ==> a'.c.todo[v] == a.c.todo[v][1..])
            && a'.c.flag == a.c.flag && Bypassed(t, a'.mem) == Bypassed(t, a.mem) && Muxed(t, a'.mem) == Muxed(t, a.mem)
  {
    if a.c.todo[v][0].Hardware? {
      AwayLeaves(t, a.mem, a.c.todo[v][0].b);
    }
  }

  lemma WriteTurn(t: Table, a: Atom, v: nat, reg: Reg, val: byte)
    requires v < |a.c.todo| && a.c.todo[v] != [] && a.c.todo[v][0] == WriteReg(t, reg, val)
    ensures Advance(a, v) == Some(Atom(a.mem[t(reg) := val], a.c.(todo := a.c.todo[v := a.c.todo[v][1..]])))
  {
    WriteOneSets(t, a.mem, reg, val);
  }

  // ---- Without automatic modes ----

  ghost predicate NeutralFrom(t: Table, todo: seq<Task>, n: nat) { n <= |todo| && AllNeutral(t, todo[n..]) }

  /** The handler will look at the flag. */
  ghost predicate Looking(t: Table, todo: seq<Task>) { NeutralFrom(t, todo, 1) && todo[0] == Ensure(t) }

  /** Where a handler that takes the LED over may be. */
  ghost predicate TakeStage(t: Table, todo: seq<Task>, m: Memory) {
    || AllNeutral(t, todo)
    || Looking(t, todo)
    || (NeutralFrom(t, todo, 3) && todo[..3] == [W1(t), M0(t), SetFlag(true)])
    || (NeutralFrom(t, todo, 2) && todo[..2] == [M0(t), SetFlag(true)] && Bypassed(t, m) == 1)
    || (NeutralFrom(t, todo, 1) && todo[0] == SetFlag(true) && TakenOver(t, m))
  }

  ghost predicate Taking(t: Table, a: Atom) {
    Sound(t, a) && forall v :: 0 <= v < |a.c.todo| ==> TakeStage(t, a.c.todo[v], a.mem)
  }

  lemma RestNeutral(t: Table, todo: seq<Task>, n: nat)
    requires 1 <= n && NeutralFrom(t, todo, n)
    ensures NeutralFrom(t, todo[1..], n - 1)
  {
    assert todo[1..][n - 1..] == todo[n..];
  }

  /** A turn that only brings the registers closer to the take-over keeps the other handlers' stages. */
  lemma StagesStay(t: Table, todo: seq<Task>, m: Memory, m': Memory)
    requires TakeStage(t, todo, m) && (Bypassed(t, m) == 1 ==> Bypassed(t, m') == 1)
    requires Muxed(t, m) == 0 ==> Muxed(t, m') == 0
    ensures TakeStage(t, todo, m')
  {
  }

  lemma TakingStep(t: Table, a: Atom, v: nat, a': Atom)
    requires Taking(t, a) && v < |a.c.todo| == |a'.c.todo| && a'.c.todo == a.c.todo[v := a'.c.todo[v]]
    requires (Bypassed(t, a.mem) == 1 ==> Bypassed(t, a'.mem) == 1) && (Muxed(t, a.mem) == 0 ==> Muxed(t, a'.mem) == 0)
    requires TakeStage(t, a'.c.todo[v], a'.mem) && Sound(t, a')
    ensures Taking(t, a')
  {
    forall u | 0 <= u < |a.c.todo|
      ensures TakeStage(t, a'.c.todo[u], a'.mem)
    {
      if u != v {
        StagesStay(t, a.c.todo[u], a.mem, a'.mem);
      }
    }
  }

  lemma LookingTurn(t: Table, a: Atom, v: nat)
    requires v < |a.c.todo| && Looking(t, a.c.todo[v])
    ensures var a' := Advance(a, v).value;
            && a'.mem == a.mem && a'.c.flag == a.c.flag && a'.c.todo == a.c.todo[v := a'.c.todo[v]]
            && (if a.c.flag then AllNeutral(t, a'.c.todo[v])
                else NeutralFrom(t, a'.c.todo[v], 3) && a'.c.todo[v][..3] == [W1(t), M0(t), SetFlag(true)])
  {
    var rest := a.c.todo[v][1..];
    TakeOverIs(t);
    assert ([W1(t), M0(t), SetFlag(true)] + rest)[3..] == rest;
  }

  lemma TakingWrites(t: Table, a: Atom, v: nat, n: nat, reg: Reg, val: byte)
    requires v < |a.c.todo| && 1 <= n && NeutralFrom(t, a.c.todo[v], n) && a.c.todo[v][0] == WriteReg(t, reg, val)
    ensures var a' := Advance(a, v).value;
            && a' == Atom(a.mem[t(reg) := val], a.c.(todo := a.c.todo[v := a.c.todo[v][1..]]))
            && NeutralFrom(t, a'.c.todo[v], n - 1) && a'.c.todo[v][..n - 1] == a.c.todo[v][..n][1..]
  {
    WriteTurn(t, a, v, reg, val);
    RestNeutral(t, a.c.todo[v], n);
  }

  lemma TakingTurn(t: Table, a: Atom, v: nat)
    requires Distinct(t) && Taking(t, a) && Advance(a, v).Some?
    ensures Taking(t, Advance(a, v).value)
  {
    var todo, a' := a.c.todo[v], Advance(a, v).value;
    if AllNeutral(t, todo) {
      NeutralTurn(t, a, v);
    } else if Looking(t, todo) {
      LookingTurn(t, a, v);
    } else if NeutralFrom(t, todo, 3) && todo[..3] == [W1(t), M0(t), SetFlag(true)] {
      assert todo[0] == todo[..3][0];
      TakingWrites(t, a, v, 3, Bypass, 0x01);
      assert a'.c.todo[v][..2] == [M0(t), SetFlag(true)];
    } else if NeutralFrom(t, todo, 2) && todo[..2] == [M0(t), SetFlag(true)] {
      assert todo[0] == todo[..2][0];
      TakingWrites(t, a, v, 2, A0Mux, 0x00);
      assert a'.c.todo[v][..1] == [SetFlag(true)] && a'.c.todo[v][0] == a'.c.todo[v][..1][0];
    }
    TakingStep(t, a, v, a');
  }

  lemma {:induction false} TakingHolds(t: Table, a: Atom, ts: seq<nat>)
    requires Distinct(t) && Taking(t, a) && Turns(a, ts).Some?
    ensures Taking(t, Turns(a, ts).value)
  {
    if ts != [] {
      TakingHolds(t, a, ts[..|ts| - 1]);
      TakingTurn(t, Turns(a, ts[..|ts| - 1]).value, ts[|ts| - 1]);
    }
  }

  // ---- Automatic modes ----

  /** Where a handler that gives the LED back may be; `Restoring` as long as it has not cleared the flag. */
  ghost predicate Restoring(t: Table, todo: seq<Task>) {
    || (NeutralFrom(t, todo, 3) && todo[..3] == [W0(t), Reset(t), SetFlag(false)])
    || (NeutralFrom(t, todo, 2) && todo[..2] == [Reset(t), SetFlag(false)])
    || (NeutralFrom(t, todo, 1) && todo[0] == SetFlag(false))
  }

  /** A turn of such a handler: the flag is cleared in the end, and the bypass only ever becomes 0. */
  lemma RestoringTurn(t: Table, a: Atom, v: nat)
    requires Distinct(t) && v < |a.c.todo| && Restoring(t, a.c.todo[v])
    ensures Advance(a, v).Some?
    ensures var a' := Advance(a, v).value;
            && a'.c.todo == a.c.todo[v := a'.c.todo[v]]
            && (if AllNeutral(t, a'.c.todo[v]) then !a'.c.flag
                else Restoring(t, a'.c.todo[v]) && a'.c.flag == a.c.flag)
            && (Bypassed(t, a'.mem) == Bypassed(t, a.mem) || Bypassed(t, a'.mem) == 0)
            && (a.c.todo[v][0] == W0(t) ==> Bypassed(t, a'.mem) == 0)
  {
    var todo := a.c.todo[v];
    if NeutralFrom(t, todo, 3) && todo[..3] == [W0(t), Reset(t), SetFlag(false)] {
      BypassTurn(t, a, v);
      NotBoth(t, Advance(a, v).value.c.todo[v]);
    } else if NeutralFrom(t, todo, 2) && todo[..2] == [Reset(t), SetFlag(false)] {
      ResetTurn(t, a, v);
      NotBoth(t, Advance(a, v).value.c.todo[v]);
    }
  }

  lemma BypassTurn(t: Table, a: Atom, v: nat)
    requires Distinct(t) && v < |a.c.todo| && NeutralFrom(t, a.c.todo[v], 3)
    requires a.c.todo[v][..3] == [W0(t), Reset(t), SetFlag(false)]
    ensures var a' := Advance(a, v).value;
            && a'.c == a.c.(todo := a.c.todo[v := a'.c.todo[v]]) && Bypassed(t, a'.mem) == 0
            && NeutralFrom(t, a'.c.todo[v], 2) && a'.c.todo[v][..2] == [Reset(t), SetFlag(false)]
  {
    assert a.c.todo[v][0] == a.c.todo[v][..3][0];
    TakingWrites(t, a, v, 3, Bypass, 0x00);
  }

  lemma ResetTurn(t: Table, a: Atom, v: nat)
    requires Distinct(t) && v < |a.c.todo| && NeutralFrom(t, a.c.todo[v], 2)
    requires a.c.todo[v][..2] == [Reset(t), SetFlag(false)]
    ensures a.c.todo[v][0] != W0(t)
    ensures var a' := Advance(a, v).value;
            && a'.c == a.c.(todo := a.c.todo[v := a'.c.todo[v]]) && Bypassed(t, a'.mem) == Bypassed(t, a.mem)
            && NeutralFrom(t, a'.c.todo[v], 1) && a'.c.todo[v][0] == SetFlag(false)
  {
    assert a.c.todo[v][0] == a.c.todo[v][..2][0];
    ResetIsAway(t);
    NeutralTurn(t, a, v);
    RestNeutral(t, a.c.todo[v], 2);
    assert a.c.todo[v][1] == a.c.todo[v][..2][1];
  }

  ghost predicate GivingBack(t: Table, todo: seq<Task>) { AllNeutral(t, todo) || Restoring(t, todo) }

  /** Without custom or animated modes: the flag is sound, or somebody is going to clear it. */
  ghost predicate Clearing(t: Table, a: Atom) {
    && (forall v :: 0 <= v < |a.c.todo| ==> GivingBack(t, a.c.todo[v]))
    && (Sound(t, a) || exists v :: 0 <= v < |a.c.todo| && Restoring(t, a.c.todo[v]))
  }

  lemma NotBoth(t: Table, todo: seq<Task>)
    requires Restoring(t, todo)
    ensures !AllNeutral(t, todo)
  {
    if NeutralFrom(t, todo, 3) && todo[..3] == [W0(t), Reset(t), SetFlag(false)] {
      assert todo[2] == todo[..3][2] && !Neutral(t, todo[2]);
    } else if NeutralFrom(t, todo, 2) && todo[..2] == [Reset(t), SetFlag(false)] {
      assert todo[1] == todo[..2][1] && !Neutral(t, todo[1]);
    } else {
      assert !Neutral(t, todo[0]);
    }
  }

  lemma ClearingTurn(t: Table, a: Atom, v: nat)
    requires Distinct(t) && Clearing(t, a) && Advance(a, v).Some?
    ensures Clearing(t, Advance(a, v).value)
  {
    var a' := Advance(a, v).value;
    if Restoring(t, a.c.todo[v]) {
      RestoringTurn(t, a, v);
    } else {
      NeutralTurn(t, a, v);
      if u :| 0 <= u < |a.c.todo| && Restoring(t, a.c.todo[u]) {
        assert a'.c.todo[u] == a.c.todo[u];
      }
    }
  }

  lemma {:induction false} ClearingHolds(t: Table, a: Atom, ts: seq<nat>)
    requires Distinct(t) && Clearing(t, a) && Turns(a, ts).Some?
    ensures Clearing(t, Turns(a, ts).value)
  {
    if ts != [] {
      ClearingHolds(t, a, ts[..|ts| - 1]);
      ClearingTurn(t, Turns(a, ts[..|ts| - 1]).value, ts[|ts| - 1]);
    }
  }

  // ---- One automatic mode over a set flag ----

  /** Handler `k` has not cleared the flag yet, and so the others have nothing to take over. */
  ghost predicate StillSet(t: Table, k: nat, a: Atom) {
    && k < |a.c.todo| && a.c.flag && Restoring(t, a.c.todo[k])
    && forall v :: 0 <= v < |a.c.todo| && v != k ==> AllNeutral(t, a.c.todo[v]) || Looking(t, a.c.todo[v])
  }

  lemma StillSetTurn(t: Table, k: nat, a: Atom, v: nat)
    requires Distinct(t) && StillSet(t, k, a) && Advance(a, v).Some?
    ensures StillSet(t, k, Advance(a, v).value) || Taking(t, Advance(a, v).value)
  {
    if v == k {
      RestoringTurn(t, a, v);
    } else if AllNeutral(t, a.c.todo[v]) {
      NeutralTurn(t, a, v);
    } else {
      LookingTurn(t, a, v);
    }
  }

  lemma {:induction false} StillSetHolds(t: Table, k: nat, a: Atom, ts: seq<nat>)
    requires Distinct(t) && StillSet(t, k, a) && Turns(a, ts).Some?
    ensures StillSet(t, k, Turns(a, ts).value) || Taking(t, Turns(a, ts).value)
  {
    if ts != [] {
      StillSetHolds(t, k, a, ts[..|ts| - 1]);
      var before := Turns(a, ts[..|ts| - 1]).value;
      if StillSet(t, k, before) {
        StillSetTurn(t, k, before, ts[|ts| - 1]);
      } else {
        TakingTurn(t, before, ts[|ts| - 1]);
      }
    }
  }

  // ---- Soundness in the end ----

  predicate IsAuto(h: Handler) { h.mode == Some(PowerLedMode.Auto) }

  predicate IsCustom(h: Handler) { h.mode.Some? && !h.mode.value.Auto? }

  /** No automatic mode, no other mode, or a set flag and one automatic mode. */
  ghost predicate Calm(hs: seq<Handler>, flag: bool) {
    || (forall i :: 0 <= i < |hs| ==> !IsAuto(hs[i]))
    || (forall i :: 0 <= i < |hs| ==> !IsCustom(hs[i]))
    || (flag && forall i, j :: 0 <= i < |hs| && 0 <= j < |hs| && IsAuto(hs[i]) && IsAuto(hs[j]) ==> i == j)
  }

  function Begin(t: Table, hw: Hw, hs: seq<Handler>, initial: ChargeLimit, flag: bool): World {
    Launch(hw, Programs(t, hs), initial, flag)
  }

  function BeginAtom(t: Table, hw: Hw, hs: seq<Handler>, initial: ChargeLimit, flag: bool): Atom {
    Atom(hw.mem, Begin(t, hw, hs, initial, flag).c)
  }

  /** In the beginning. */
  lemma ProgramStage(t: Table, h: Handler)
    requires Distinct(t) && Paired(h.rest, false) && AllNeutral(t, h.rest)
    ensures Paired(Program(t, h), false)
    ensures if IsAuto(h) then Restoring(t, Program(t, h)) && Program(t, h)[0] == W0(t)
            else if IsCustom(h) then Looking(t, Program(t, h))
            else AllNeutral(t, Program(t, h))
  {
    if h.mode.Some? {
      LedIsPlain(t, h.mode.value);
      PlainThen(LedProgram(t, h.mode.value), h.rest, false);
      if h.mode.value.Auto? {
        AutoStage(t, h.rest);
      } else {
        OtherStage(t, h.mode.value, h.rest);
      }
    } else {
      assert Program(t, h) == h.rest;
    }
  }

  lemma AutoStage(t: Table, rest: seq<Task>)
    requires AllNeutral(t, rest)
    ensures var p := LedProgram(t, PowerLedMode.Auto) + rest; Restoring(t, p) && p[0] == W0(t)
  {
    AutoProgramIs(t);
    var clear := [W0(t), Reset(t), SetFlag(false)];
    assert (clear + rest)[3..] == rest && (clear + rest)[..3] == clear;
  }

  lemma OtherStage(t: Table, mode: PowerLedMode, rest: seq<Task>)
    requires Distinct(t) && !mode.Auto? && AllNeutral(t, rest)
    ensures Looking(t, LedProgram(t, mode) + rest)
  {
    OtherProgramIs(t, mode);
    EngineIsNeutral(t, mode);
    var engine := Engine(t, mode);
    Associate([Ensure(t)], engine, rest);
    assert ([Ensure(t)] + (engine + rest))[1..] == engine + rest;
  }

  lemma AllPrograms(t: Table, hs: seq<Handler>)
    requires Distinct(t) && Valid(t, hs)
    ensures AllPaired(Programs(t, hs))
    ensures forall i :: 0 <= i < |hs| ==>
              if IsAuto(hs[i]) then Restoring(t, Programs(t, hs)[i]) && Programs(t, hs)[i][0] == W0(t)
              else if IsCustom(hs[i]) then Looking(t, Programs(t, hs)[i])
              else AllNeutral(t, Programs(t, hs)[i])
  {
    forall i | 0 <= i < |hs|
      ensures Paired(Programs(t, hs)[i], false)
      ensures if IsAuto(hs[i]) then Restoring(t, Programs(t, hs)[i]) && Programs(t, hs)[i][0] == W0(t)
              else if IsCustom(hs[i]) then Looking(t, Programs(t, hs)[i])
              else AllNeutral(t, Programs(t, hs)[i])
    {
      ProgramStage(t, hs[i]);
    }
  }

  lemma OverIsSound(t: Table, a: Atom)
    requires Over(a) && (Taking(t, a) || Clearing(t, a))
    ensures Sound(t, a)
  {
    if Clearing(t, a) && !Sound(t, a) {
      var v :| 0 <= v < |a.c.todo| && Restoring(t, a.c.todo[v]);
      NotBoth(t, a.c.todo[v]);
    }
  }

  lemma WithoutAutosSound(t: Table, hs: seq<Handler>, a: Atom, ts: seq<nat>)
    requires Distinct(t) && Valid(t, hs) && a.c.todo == Programs(t, hs) && Sound(t, a)
    requires Turns(a, ts).Some? && Over(Turns(a, ts).value)
    requires forall i :: 0 <= i < |hs| ==> !IsAuto(hs[i])
    ensures Sound(t, Turns(a, ts).value)
  {
    AllPrograms(t, hs);
    TakingHolds(t, a, ts);
  }

  lemma WithoutCustomsSound(t: Table, hs: seq<Handler>, a: Atom, ts: seq<nat>)
    requires Distinct(t) && Valid(t, hs) && a.c.todo == Programs(t, hs) && Sound(t, a)
    requires Turns(a, ts).Some? && Over(Turns(a, ts).value)
    requires forall i :: 0 <= i < |hs| ==> !IsCustom(hs[i])
    ensures Sound(t, Turns(a, ts).value)
  {
    AllPrograms(t, hs);
    ClearingHolds(t, a, ts);
    OverIsSound(t, Turns(a, ts).value);
  }

  lemma OneAutoSound(t: Table, hs: seq<Handler>, a: Atom, k: nat, ts: seq<nat>)
    requires Distinct(t) && Valid(t, hs) && a.c.todo == Programs(t, hs) && Sound(t, a)
    requires Turns(a, ts).Some? && Over(Turns(a, ts).value)
    requires a.c.flag && k < |hs| && IsAuto(hs[k]) && forall i :: 0 <= i < |hs| && i != k ==> !IsAuto(hs[i])
    ensures Sound(t, Turns(a, ts).value)
  {
    AllPrograms(t, hs);
    StillSetHolds(t, k, a, ts);
    StillSetIsNotOver(t, k, Turns(a, ts).value);
  }

  lemma CalmIsSound(t: Table, hs: seq<Handler>, a: Atom, ts: seq<nat>)
    requires Distinct(t) && Valid(t, hs) && a.c.todo == Programs(t, hs) && Sound(t, a)
    requires Turns(a, ts).Some? && Over(Turns(a, ts).value)
    requires Calm(hs, a.c.flag)
    ensures Sound(t, Turns(a, ts).value)
  {
    if forall i :: 0 <= i < |hs| ==> !IsAuto(hs[i]) {
      WithoutAutosSound(t, hs, a, ts);
    } else if forall i :: 0 <= i < |hs| ==> !IsCustom(hs[i]) {
      WithoutCustomsSound(t, hs, a, ts);
    } else {
      var k :| 0 <= k < |hs| && IsAuto(hs[k]);
      OneAutoSound(t, hs, a, k, ts);
    }
  }

  lemma StillSetIsNotOver(t: Table, k: nat, a: Atom)
    requires Over(a)
    ensures !StillSet(t, k, a)
  {
    if StillSet(t, k, a) {
      NotBoth(t, a.c.todo[k]);
    }
  }

  // ---- A run that ends with an unsound flag ----

  /** Handler `u` alone clears the flag. */
  lemma {:induction false} AutoClears(t: Table, a: Atom, u: nat, ts: seq<nat>)
    requires Distinct(t) && u < |a.c.todo| && Only(u, ts) && Turns(a, ts).Some?
    requires Restoring(t, a.c.todo[u])
    ensures var a' := Turns(a, ts).value;
            && u < |a'.c.todo| && (Restoring(t, a'.c.todo[u]) || (AllNeutral(t, a'.c.todo[u]) && !a'.c.flag))
  {
    if ts != [] {
      AutoClears(t, a, u, ts[..|ts| - 1]);
      var before := Turns(a, ts[..|ts| - 1]).value;
      assert ts[|ts| - 1] == u;
      if Restoring(t, before.c.todo[u]) {
        RestoringTurn(t, before, u);
      } else {
        NeutralTurn(t, before, u);
      }
    }
  }

  /** Once the flag is clear, automatic modes of the handlers in `us` keep it clear, and clear the bypass. */
  ghost predicate Cleared(t: Table, us: set<nat>, i: nat, first: seq<Task>, a: Atom) {
    && !a.c.flag && i < |a.c.todo|
    && (forall u :: u in us && u < |a.c.todo| ==> GivingBack(t, a.c.todo[u]))
    && (a.c.todo[i] == first || Bypassed(t, a.mem) == 0)
  }

  lemma ClearedTurn(t: Table, us: set<nat>, i: nat, first: seq<Task>, a: Atom, v: nat)
    requires Distinct(t) && Cleared(t, us, i, first, a) && v in us && Advance(a, v).Some?
    requires i in us && Restoring(t, first) && first[0] == W0(t)
    ensures Cleared(t, us, i, first, Advance(a, v).value)
  {
    if Restoring(t, a.c.todo[v]) {
      RestoringTurn(t, a, v);
    } else {
      NotBoth(t, first);
      NeutralTurn(t, a, v);
    }
  }

  lemma {:induction false} ClearedHolds(t: Table, us: set<nat>, i: nat, first: seq<Task>, a: Atom, ts: seq<nat>)
    requires Distinct(t) && Cleared(t, us, i, first, a) && Turns(a, ts).Some?
    requires i in us && Restoring(t, first) && first[0] == W0(t)
    requires forall k :: 0 <= k < |ts| ==> ts[k] in us
    ensures Cleared(t, us, i, first, Turns(a, ts).value)
  {
    if ts != [] {
      ClearedHolds(t, us, i, first, a, ts[..|ts| - 1]);
      ClearedTurn(t, us, i, first, Turns(a, ts[..|ts| - 1]).value, ts[|ts| - 1]);
    }
  }

  /** The flag is set over a cleared bypass, and the remaining handlers trust it. */
  ghost predicate Broken(t: Table, a: Atom) {
    && a.c.flag && Bypassed(t, a.mem) == 0
    && forall v :: 0 <= v < |a.c.todo| ==> AllNeutral(t, a.c.todo[v]) || Looking(t, a.c.todo[v])
  }

  lemma {:induction false} BrokenHolds(t: Table, a: Atom, ts: seq<nat>)
    requires Distinct(t) && Broken(t, a) && Turns(a, ts).Some?
    ensures Broken(t, Turns(a, ts).value)
  {
    if ts != [] {
      BrokenHolds(t, a, ts[..|ts| - 1]);
      var before, v := Turns(a, ts[..|ts| - 1]).value, ts[|ts| - 1];
      if AllNeutral(t, before.c.todo[v]) {
        NeutralTurn(t, before, v);
      } else {
        LookingTurn(t, before, v);
      }
    }
  }

  /** Handler `j` has taken the LED over but not yet set the flag. */
  lemma TakeOverTurns(t: Table, a: Atom, j: nat) returns (ts: seq<nat>)
    requires Distinct(t) && j < |a.c.todo| && Looking(t, a.c.todo[j]) && !a.c.flag
    ensures Turns(a, ts).Some?
    ensures var a' := Turns(a, ts).value;
            && a'.c == a.c.(todo := a.c.todo[j := [SetFlag(true)] + a.c.todo[j][1..]])
  {
    var rest := a.c.todo[j][1..];
    TakeOverIs(t);
    var a1 := Advance(a, j).value;
    assert a1.c.todo[j] == [W1(t), M0(t), SetFlag(true)] + rest;
    WriteTurn(t, a1, j, Bypass, 0x01);
    var a2 := Advance(a1, j).value;
    assert a2.c.todo[j] == [M0(t), SetFlag(true)] + rest;
    WriteTurn(t, a2, j, A0Mux, 0x00);
    var a3 := Advance(a2, j).value;
    assert a3.c.todo[j] == [SetFlag(true)] + rest;
    OneTurn(a, j);
    OneTurn(a1, j);
    OneTurn(a2, j);
    TurnsAppend(a, [j], [j]);
    TurnsAppend(a, [j] + [j], [j]);
    ts := [j] + [j] + [j];
    assert a3.c.todo == a.c.todo[j := [SetFlag(true)] + rest];
  }

  function Autos(hs: seq<Handler>): set<nat> { set k: nat | k < |hs| && IsAuto(hs[k]) }

  function Rest(hs: seq<Handler>): set<nat> { set k: nat | k < |hs| && !IsAuto(hs[k]) }

  /** Fresh handlers, of which at most some automatic ones other than `i` have finished, under a clear flag. */
  ghost predicate ReadyToRace(t: Table, hs: seq<Handler>, i: nat, a: Atom) {
    && |a.c.todo| == |hs| && a.c.guard.None? && !a.c.flag && i < |hs| && a.c.todo[i] == Programs(t, hs)[i]
    && forall v :: 0 <= v < |hs| ==> a.c.todo[v] == Programs(t, hs)[v] || (IsAuto(hs[v]) && a.c.todo[v] == [])
  }

  lemma ClearFirst(t: Table, hs: seq<Handler>, a: Atom, i: nat, k: nat) returns (ts: seq<nat>)
    requires Distinct(t) && Valid(t, hs) && a.c.todo == Programs(t, hs) && a.c.guard.None? && i < |hs|
    requires a.c.flag ==> k < |hs| && k != i && IsAuto(hs[k])
    ensures Turns(a, ts).Some? && ReadyToRace(t, hs, i, Turns(a, ts).value)
  {
    if a.c.flag {
      AllPrograms(t, hs);
      ts := RunOut(a, k);
      AutoClears(t, a, k, ts);
      NotRestoring(t);
    } else {
      ts := [];
    }
  }

  lemma NotRestoring(t: Table)
    ensures !Restoring(t, [])
  {
  }

  /** The automatic handlers are at their beginnings or ends, and `i` at its beginning. */
  ghost predicate AutosReady(t: Table, hs: seq<Handler>, i: nat, a: Atom) {
    && |a.c.todo| == |hs| && a.c.guard.None? && !a.c.flag && i < |hs| && a.c.todo[i] == Programs(t, hs)[i]
    && forall v :: 0 <= v < |hs| && IsAuto(hs[v]) ==> a.c.todo[v] == Programs(t, hs)[v] || a.c.todo[v] == []
  }

  lemma AutosPaired(t: Table, hs: seq<Handler>, i: nat, a: Atom, v: nat)
    requires Distinct(t) && Valid(t, hs) && AutosReady(t, hs, i, a) && v < |hs| && IsAuto(hs[v])
    ensures Paired(a.c.todo[v], false) && GivingBack(t, a.c.todo[v])
  {
    AllPrograms(t, hs);
    assert Paired([], false) && AllNeutral(t, []);
  }

  lemma AutosCleared(t: Table, hs: seq<Handler>, i: nat, a: Atom, ts: seq<nat>)
    requires Distinct(t) && Valid(t, hs) && AutosReady(t, hs, i, a) && IsAuto(hs[i]) && Turns(a, ts).Some?
    requires forall n :: 0 <= n < |ts| ==> ts[n] in Autos(hs)
    ensures Cleared(t, Autos(hs), i, Programs(t, hs)[i], Turns(a, ts).value) && Programs(t, hs)[i] != []
  {
    AllPrograms(t, hs);
    forall v | v in Autos(hs)
      ensures GivingBack(t, a.c.todo[v])
    {
      AutosPaired(t, hs, i, a, v);
    }
    ClearedHolds(t, Autos(hs), i, Programs(t, hs)[i], a, ts);
  }

  /** All automatic handlers run while somebody is about to set the flag. */
  lemma AutosRun(t: Table, hs: seq<Handler>, a: Atom, i: nat) returns (ts: seq<nat>)
    requires Distinct(t) && Valid(t, hs) && AutosReady(t, hs, i, a) && IsAuto(hs[i])
    ensures Turns(a, ts).Some?
    ensures var a' := Turns(a, ts).value;
            && Bypassed(t, a'.mem) == 0 && a'.c.guard.None? && |a'.c.todo| == |hs|
            && forall v :: 0 <= v < |hs| ==> a'.c.todo[v] == if IsAuto(hs[v]) then [] else a.c.todo[v]
  {
    forall v | 0 <= v < |hs| && v !in Rest(hs)
      ensures Paired(a.c.todo[v], false)
    {
      AutosPaired(t, hs, i, a, v);
    }
    ts := RunOutBelow(a, |hs|, Rest(hs));
    forall n | 0 <= n < |ts|
      ensures ts[n] in Autos(hs)
    {
      assert ts[n] !in Rest(hs);
    }
    AutosCleared(t, hs, i, a, ts);
    assert i !in Rest(hs) && Turns(a, ts).value.c.todo[i] == [];
  }

  /** Handler `j` sets the flag, and everybody finishes. */
  lemma SetAndFinish(t: Table, hs: seq<Handler>, a: Atom, j: nat, rest: seq<Task>) returns (ts: seq<nat>)
    requires Distinct(t) && j < |a.c.todo| && a.c.todo[j] == [SetFlag(true)] + rest && AllNeutral(t, rest)
    requires Bypassed(t, a.mem) == 0 && a.c.guard.None? && Paired(rest, false)
    requires forall v :: 0 <= v < |a.c.todo| && v != j ==>
               Paired(a.c.todo[v], false) && (AllNeutral(t, a.c.todo[v]) || Looking(t, a.c.todo[v]))
    ensures Turns(a, ts).Some? && Over(Turns(a, ts).value) && !Sound(t, Turns(a, ts).value)
  {
    var a1 := a.(c := a.c.(flag := true, todo := a.c.todo[j := rest]));
    assert Advance(a, j) == Some(a1);
    OneTurn(a, j);
    var last := RunOutBelow(a1, |a1.c.todo|, {});
    BrokenHolds(t, a1, last);
    TurnsAppend(a, [j], last);
    ts := [j] + last;
  }

  /** Handler `j` is about to set the flag, and the other programs have not begun, up to finished automatic ones. */
  ghost predicate AboutToSet(t: Table, hs: seq<Handler>, i: nat, j: nat, a: Atom) {
    && AutosReady(t, hs, i, a) && j < |hs| && Programs(t, hs)[j] != []
    && a.c.todo[j] == [SetFlag(true)] + Programs(t, hs)[j][1..]
    && forall v :: 0 <= v < |hs| && v != j && !IsAuto(hs[v]) ==> a.c.todo[v] == Programs(t, hs)[v]
  }

  lemma PrepareRace(t: Table, hs: seq<Handler>, a: Atom, i: nat, j: nat, k: nat) returns (ts: seq<nat>)
    requires Distinct(t) && Valid(t, hs) && a.c.todo == Programs(t, hs) && a.c.guard.None?
    requires i < |hs| && j < |hs| && IsAuto(hs[i]) && IsCustom(hs[j])
    requires a.c.flag ==> k < |hs| && k != i && IsAuto(hs[k])
    ensures Turns(a, ts).Some? && AboutToSet(t, hs, i, j, Turns(a, ts).value)
  {
    AllPrograms(t, hs);
    var one := ClearFirst(t, hs, a, i, k);
    var a1 := Turns(a, one).value;
    var two := TakeOverTurns(t, a1, j);
    TurnsAppend(a, one, two);
    ts := one + two;
  }

  lemma Race(t: Table, hs: seq<Handler>, a: Atom, i: nat, j: nat, k: nat) returns (ts: seq<nat>)
    requires Distinct(t) && Valid(t, hs) && a.c.todo == Programs(t, hs) && a.c.guard.None?
    requires i < |hs| && j < |hs| && IsAuto(hs[i]) && IsCustom(hs[j])
    requires a.c.flag ==> k < |hs| && k != i && IsAuto(hs[k])
    ensures Turns(a, ts).Some? && Over(Turns(a, ts).value) && !Sound(t, Turns(a, ts).value)
  {
    var one := PrepareRace(t, hs, a, i, j, k);
    var a1 := Turns(a, one).value;
    var two := AutosRun(t, hs, a1, i);
    TurnsAppend(a, one, two);
    var three := FinishRace(t, hs, Turns(a1, two).value, j);
    TurnsAppend(a, one + two, three);
    ts := one + two + three;
  }

  lemma FinishRace(t: Table, hs: seq<Handler>, a: Atom, j: nat) returns (ts: seq<nat>)
    requires Distinct(t) && Valid(t, hs) && j < |hs| && IsCustom(hs[j]) && |a.c.todo| == |hs|
    requires Bypassed(t, a.mem) == 0 && a.c.guard.None? && Programs(t, hs)[j] != []
    requires forall v :: 0 <= v < |hs| && v != j ==> a.c.todo[v] == if IsAuto(hs[v]) then [] else Programs(t, hs)[v]
    requires a.c.todo[j] == [SetFlag(true)] + Programs(t, hs)[j][1..]
    ensures Turns(a, ts).Some? && Over(Turns(a, ts).value) && !Sound(t, Turns(a, ts).value)
  {
    AllPrograms(t, hs);
    assert Paired(Programs(t, hs)[j], false) && Looking(t, Programs(t, hs)[j]);
    assert Paired([], false) && AllNeutral(t, []);
    ts := SetAndFinish(t, hs, a, j, Programs(t, hs)[j][1..]);
  }

  // ---- Exactly when the flag can go wrong ----

  ghost predicate SoundAfter(t: Table, w: World, ms: seq<Move>)
    requires RunMoves(w, ms).Some?
  {
    Sound(t, Atom(RunMoves(w, ms).value.s.hw.mem, RunMoves(w, ms).value.c))
  }

  ghost predicate AlwaysSound(t: Table, w: World) { forall ms :: FinishedRun(w, ms) ==> SoundAfter(t, w, ms) }

  /**
   * Main result, for any number of handlers, any scheduler and no errors, from a sound flag: the flag is
   * sure to be sound in the end exactly when no handler applies an automatic mode, or none applies
   * another one, or the flag is set and only one applies an automatic mode.
   */
  lemma {:induction false} FlagSurvivesRacesIff(t: Table, hw: Hw, hs: seq<Handler>, initial: ChargeLimit, flag: bool)
    requires Distinct(t) && Valid(t, hs) && (flag ==> TakenOver(t, hw.mem))
    ensures AlwaysSound(t, Begin(t, hw, hs, initial, flag)) <==> Calm(hs, flag)
  {
    var w, a := Begin(t, hw, hs, initial, flag), BeginAtom(t, hw, hs, initial, flag);
    AllPrograms(t, hs);
    if Calm(hs, flag) {
      forall ms | FinishedRun(w, ms)
        ensures SoundAfter(t, w, ms)
      {
        var ts := DoneIsAtomic(hw, Programs(t, hs), initial, flag, ms);
        CalmIsSound(t, hs, a, ts);
      }
    } else {
      var i, j, k := Racers(hs, flag);
      var ts := Race(t, hs, a, i, j, k);
      var ms := AtomicIsDone(hw, Programs(t, hs), initial, flag, ts);
      assert FinishedRun(w, ms) && !SoundAfter(t, w, ms);
    }
  }

  lemma Racers(hs: seq<Handler>, flag: bool) returns (i: nat, j: nat, k: nat)
    requires !Calm(hs, flag)
    ensures i < |hs| && j < |hs| && IsAuto(hs[i]) && IsCustom(hs[j])
    ensures flag ==> k < |hs| && k != i && IsAuto(hs[k])
  {
    i :| 0 <= i < |hs| && IsAuto(hs[i]);
    j :| 0 <= j < |hs| && IsCustom(hs[j]);
    k := 0;
    if flag {
      i, k :| 0 <= i < |hs| && 0 <= k < |hs| && IsAuto(hs[i]) && IsAuto(hs[k]) && i != k;
    }
  }
}
