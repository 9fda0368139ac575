/** The concurrent LED programs against the operations they stand for. */
module LedHandlers {
  import opened Bytes
  import opened EcPort
  import opened EcSchedule
  import opened EcRegs
  import opened EcActs
  import opened Settings
  import opened SharedPairs
  import opened Handlers
  import opened AtomicHandlers
  import opened LedRaces
  import Daemon

  /** Registers and flag, as the operations see them. */
  function Chip(a: Atom): Ec { Ec(a.mem, a.c.flag) }

  /** A batch of register writes does what the writes do. */
  lemma {:induction false} PokesDo(t: Table, e: Ec, acts: seq<Act>)
    requires forall i :: 0 <= i < |acts| ==> acts[i].Write?
    ensures MemAfter(e.mem, Pokes(t, acts)) == Do(t, e, acts).mem && Do(t, e, acts).ledCustom == e.ledCustom
  {
    if acts != [] {
      var n := |acts| - 1;
      PokesDo(t, e, acts[..n]);
      assert Pokes(t, acts)[..n] == Pokes(t, acts[..n]);
    }
  }

  /** Handler `u` alone has performed `acts`, and has `rest` left to do; nothing else has changed. */
  ghost predicate Performs(t: Table, a: Atom, u: nat, ts: seq<nat>, acts: seq<Act>, rest: seq<Task>) {
    && u < |a.c.todo| && Only(u, ts) && Turns(a, ts).Some?
    && var a' := Turns(a, ts).value;
       && Chip(a') == Do(t, Chip(a), acts)
       && a'.c == a.c.(todo := a.c.todo[u := rest], flag := a'.c.flag)
  }

  lemma PerformsBoth(t: Table, a: Atom, u: nat, xs: seq<nat>, ys: seq<nat>, p: seq<Act>, q: seq<Act>, mid: seq<Task>,
          rest: seq<Task>)
    requires Performs(t, a, u, xs, p, mid) && Performs(t, Turns(a, xs).value, u, ys, q, rest)
    ensures Performs(t, a, u, xs + ys, p + q, rest)
  {
    TurnsAppend(a, xs, ys);
    DoAppend(t, Chip(a), p, q);
    assert a.c.todo[u := mid][u := rest] == a.c.todo[u := rest];
  }

  lemma OneAct(t: Table, e: Ec, act: Act)
    ensures Do(t, e, [act]) == DoAct(t, e, act)
  {
    assert [act][..0] == [];
  }

  lemma WritePerforms(t: Table, a: Atom, u: nat, reg: Reg, val: byte, rest: seq<Task>)
    requires u < |a.c.todo| && a.c.todo[u] == [WriteReg(t, reg, val)] + rest
    ensures Performs(t, a, u, [u], [Write(reg, val)], rest)
  {
    WriteTurn(t, a, u, reg, val);
    OneTurn(a, u);
    OneAct(t, Chip(a), Write(reg, val));
    assert a.c.todo[u][1..] == rest;
  }

  lemma FlagPerforms(t: Table, a: Atom, u: nat, on: bool, rest: seq<Task>)
    requires u < |a.c.todo| && a.c.todo[u] == [SetFlag(on)] + rest
    ensures Performs(t, a, u, [u], [StoreFlag(on)], rest)
  {
    OneTurn(a, u);
    OneAct(t, Chip(a), StoreFlag(on));
    assert a.c.todo[u][1..] == rest;
  }

  lemma ResetPerforms(t: Table, a: Atom, u: nat, rest: seq<Task>)
    requires u < |a.c.todo| && a.c.todo[u] == [Reset(t)] + rest
    ensures Performs(t, a, u, [u], RESET_ENGINE, rest)
  {
    OneTurn(a, u);
    PokesDo(t, Chip(a), RESET_ENGINE);
    assert a.c.todo[u][1..] == rest;
  }

  function Writes(writes: seq<(Reg, byte)>): seq<Act> {
    seq(|writes|, i requires 0 <= i < |writes| => Write(writes[i].0, writes[i].1))
  }

  lemma {:induction false} WritesPerform(t: Table, a: Atom, u: nat, writes: seq<(Reg, byte)>, rest: seq<Task>)
    returns (ts: seq<nat>)
    requires u < |a.c.todo| && a.c.todo[u] == WriteRegs(t, writes) + rest
    ensures Performs(t, a, u, ts, Writes(writes), rest)
    decreases |writes|
  {
    if writes == [] {
      ts := [];
      assert WriteRegs(t, writes) + rest == rest && a.c.todo[u := rest] == a.c.todo;
    } else {
      var reg, val, others := writes[0].0, writes[0].1, writes[1..];
      var mid := WriteRegs(t, others) + rest;
      assert WriteRegs(t, writes) == [WriteReg(t, reg, val)] + WriteRegs(t, others);
      Associate([WriteReg(t, reg, val)], WriteRegs(t, others), rest);
      WritePerforms(t, a, u, reg, val, mid);
      var last := WritesPerform(t, Turns(a, [u]).value, u, others, rest);
      PerformsBoth(t, a, u, [u], last, [Write(reg, val)], Writes(others), mid, rest);
      assert [Write(reg, val)] + Writes(others) == Writes(writes);
      ts := [u] + last;
    }
  }

  lemma GiveBackPerforms(t: Table, a: Atom, u: nat, rest: seq<Task>) returns (ts: seq<nat>)
    requires u < |a.c.todo| && a.c.todo[u] == [W0(t), Reset(t), SetFlag(false)] + rest
    ensures Performs(t, a, u, ts, LedActs(a.c.flag, PowerLedMode.Auto), rest)
  {
    var two, one := [Reset(t), SetFlag(false)] + rest, [SetFlag(false)] + rest;
    assert a.c.todo[u] == [W0(t)] + two && two == [Reset(t)] + one;
    WritePerforms(t, a, u, Bypass, 0x00, two);
    var a1 := Turns(a, [u]).value;
    ResetPerforms(t, a1, u, one);
    PerformsBoth(t, a, u, [u], [u], [Write(Bypass, 0x00)], RESET_ENGINE, two, one);
    var a2 := Turns(a, [u] + [u]).value;
    FlagPerforms(t, a2, u, false, rest);
    PerformsBoth(t, a, u, [u] + [u], [u], [Write(Bypass, 0x00)] + RESET_ENGINE, [StoreFlag(false)], one, rest);
    ts := [u] + [u] + [u];
  }

  /** Taking the LED over, or not, as the flag says. */
  lemma EnsurePerforms(t: Table, a: Atom, u: nat, rest: seq<Task>) returns (ts: seq<nat>)
    requires u < |a.c.todo| && a.c.todo[u] == [Ensure(t)] + rest
    ensures Performs(t, a, u, ts, if a.c.flag then [] else TAKE_OVER, rest)
  {
    assert a.c.todo[u][1..] == rest;
    OneTurn(a, u);
    var a1 := Advance(a, u).value;
    if a.c.flag {
      ts := [u];
    } else {
      TakeOverIs(t);
      var take := [(Bypass, 0x01), (A0Mux, 0x00)];
      assert WriteRegs(t, take) == [W1(t), M0(t)];
      assert TakeOver(Ensure(t).writes) + rest == WriteRegs(t, take) + ([SetFlag(true)] + rest);
      var writes := WritesPerform(t, a1, u, take, [SetFlag(true)] + rest);
      assert Writes(take) == [Write(Bypass, 0x01), Write(A0Mux, 0x00)];
      var a2 := Turns(a1, writes).value;
      FlagPerforms(t, a2, u, true, rest);
      PerformsBoth(t, a1, u, writes, [u], Writes(take), [StoreFlag(true)], [SetFlag(true)] + rest, rest);
      assert Writes(take) + [StoreFlag(true)] == TAKE_OVER;
      TurnThen(a, u, writes + [u]);
      ts := [u] + (writes + [u]);
      assert a.c.todo[u := TakeOver(Ensure(t).writes) + rest][u := rest] == a.c.todo[u := rest];
    }
  }

  lemma EnginePerforms(t: Table, a: Atom, u: nat, mode: PowerLedMode, rest: seq<Task>) returns (ts: seq<nat>)
    requires u < |a.c.todo| && !mode.Auto? && a.c.todo[u] == Engine(t, mode) + rest
    ensures Performs(t, a, u, ts, LedActs(true, mode), rest)
  {
    var writes := if mode.Custom? then [(LedDuty, mode.brightness)]
                  else LaunchWrites(mode.config.StepByte(), mode.config.DelayByte());
    var mid := WriteRegs(t, writes) + rest;
    assert Engine(t, mode) == [Reset(t)] + WriteRegs(t, writes);
    Associate([Reset(t)], WriteRegs(t, writes), rest);
    ResetPerforms(t, a, u, mid);
    var last := WritesPerform(t, Turns(a, [u]).value, u, writes, rest);
    PerformsBoth(t, a, u, [u], last, RESET_ENGINE, Writes(writes), mid, rest);
    EngineActs(mode, writes);
    ts := [u] + last;
  }

  lemma EngineActs(mode: PowerLedMode, writes: seq<(Reg, byte)>)
    requires !mode.Auto?
    requires writes == if mode.Custom? then [(LedDuty, mode.brightness)]
                       else LaunchWrites(mode.config.StepByte(), mode.config.DelayByte())
    ensures LedActs(true, mode) == RESET_ENGINE + Writes(writes)
  {
    if mode.Animation? {
      assert Writes(writes) == BreathActs(mode.config);
    } else {
      assert Writes(writes) == [Write(LedDuty, mode.brightness)];
    }
    assert [] + RESET_ENGINE == RESET_ENGINE;
  }

  /**
   * On its own, a handler that applies an LED mode does exactly what `apply_led_mode` does, whatever the
   * registers and the flag hold.
   */
  lemma LedProgramPerforms(t: Table, a: Atom, u: nat, mode: PowerLedMode, rest: seq<Task>) returns (ts: seq<nat>)
    requires u < |a.c.todo| && a.c.todo[u] == LedProgram(t, mode) + rest
    ensures Performs(t, a, u, ts, LedActs(a.c.flag, mode), rest)
  {
    if mode.Auto? {
      AutoProgramIs(t);
      ts := GiveBackPerforms(t, a, u, rest);
    } else {
      OtherProgramIs(t, mode);
      var mid := Engine(t, mode) + rest;
      Associate([Ensure(t)], Engine(t, mode), rest);
      var first := EnsurePerforms(t, a, u, mid);
      var last := EnginePerforms(t, Turns(a, first).value, u, mode, rest);
      var before := if a.c.flag then [] else TAKE_OVER;
      PerformsBoth(t, a, u, first, last, before, LedActs(true, mode), mid, rest);
      TakenActs(a.c.flag, mode);
      ts := first + last;
    }
  }

  lemma TakenActs(flag: bool, mode: PowerLedMode)
    requires !mode.Auto?
    ensures LedActs(flag, mode) == (if flag then [] else TAKE_OVER) + LedActs(true, mode)
  {
    var before := if flag then [] else TAKE_OVER;
    var tail := if mode.Custom? then [Write(LedDuty, mode.brightness)] else BreathActs(mode.config);
    assert LedActs(true, mode) == RESET_ENGINE + tail;
    Associate(before, RESET_ENGINE, tail);
  }

  // ---- What an event reads before it saves ----

  /** The two memories agree on everything the readings read. */
  ghost predicate SameReadings(t: Table, m: Memory, m': Memory) {
    forall i, k :: 0 <= i < |Readings(t)| && Readings(t)[i].Hardware? && 0 <= k < |Readings(t)[i].b| ==>
      m[Readings(t)[i].b[k].addr] == m'[Readings(t)[i].b[k].addr]
  }

  lemma Looks(t: Table, reg: Reg)
    ensures ReadReg(t, reg) == Hardware([Peek(t(reg))])
  {
    assert [t(reg)][1..] == [] && Reads([]) == [];
    assert Reads([t(reg)]) == [Peek([t(reg)][0])] + Reads([t(reg)][1..]);
  }

  lemma ReadingsCover(t: Table, m: Memory, m': Memory, i: nat, reg: Reg)
    requires SameReadings(t, m, m') && i < |Readings(t)| && Readings(t)[i] == ReadReg(t, reg)
    ensures m[t(reg)] == m'[t(reg)]
  {
    Looks(t, reg);
    assert Readings(t)[i].b[0].addr == t(reg);
  }

  /** A power-down event reads everything that what it saves depends on. */
  lemma ReadingsSuffice(t: Table, e: Ec, e': Ec, s: CurrentSettings)
    requires SameReadings(t, e.mem, e'.mem)
    ensures Daemon.ReadBack(t, e, s) == Daemon.ReadBack(t, e', s)
  {
    ReadingsCover(t, e.mem, e'.mem, 0, Kbd);
    ReadingsCover(t, e.mem, e'.mem, 1, KbdVal);
    ReadingsCover(t, e.mem, e'.mem, 3, Power);
    ReadingsCover(t, e.mem, e'.mem, 5, LimitMin);
    ReadingsCover(t, e.mem, e'.mem, 6, LimitMax);
  }
}
