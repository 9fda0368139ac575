/**
 * Two-register settings under concurrency: fan (policy, duty) pairs and the (min, max) charge limit,
 * in every interleaving of the daemon's batches whose port calls succeed.
 */
module SharedPairs {
  import opened Bytes
  import opened EcPort
  import opened EcSchedule
  import opened EcRegs
  import opened EcActs
  import opened Settings

  /** Every batch the daemon runs against the chip. */
  datatype Job =
    | Look(addrs: seq<u16>)              // getters, detection
    | SetFan(fan: FanIndex, mode: FanMode)
    | SetLimit(limit: ChargeLimit)
    | KeyboardCustom(v: byte)
    | ResetEngine
    | WriteOne(reg: Reg, val: byte)      // all other register writes are batches of their own

  function Reads(addrs: seq<u16>): Batch {
    if addrs == [] then [] else [Peek(addrs[0])] + Reads(addrs[1..])
  }

  /** Register writes, submitted as one batch. */
  function Pokes(t: Table, acts: seq<Act>): Batch
    requires forall i :: 0 <= i < |acts| ==> acts[i].Write?
  {
    seq(|acts|, i requires 0 <= i < |acts| => Poke(t(acts[i].reg), acts[i].val))
  }

  function BatchOf(t: Table, job: Job): Batch {
    match job
    case Look(addrs) => Reads(addrs)
    case SetFan(fan, mode) => Pokes(t, FanActs(fan, mode))
    case SetLimit(limit) => Pokes(t, ChargeActs(limit))
    case KeyboardCustom(v) => Pokes(t, KeyboardActs(KeyboardLevel.Custom(v)))
    case ResetEngine => Pokes(t, RESET_ENGINE)
    case WriteOne(reg, val) => [Poke(t(reg), val)]
  }

  /**
   * The jobs handlers submit: fan duties are checked before, pairs are never written one by one, and the
   * custom keyboard value is written only together with its level.
   */
  predicate Allowed(job: Job) {
    match job
    case SetFan(_, mode) => FanAllowed(mode)
    case WriteOne(reg, _) => Owner(reg) != Charge && !Owner(reg).Fan? && reg != KbdVal
    case _ => true
  }

  ghost predicate FromDaemon(t: Table, b: Batch) {
    exists job :: Allowed(job) && b == BatchOf(t, job)
  }

  /** An error-free run of daemon batches. */
  ghost predicate DaemonSteps(t: Table, steps: seq<Step>) {
    forall i :: 0 <= i < |steps| ==>
      && (steps[i].Request? ==> FromDaemon(t, steps[i].batch))
      && (steps[i].Port? ==> !steps[i].fault)
  }

  ghost predicate Busy(t: Table, th: Thread) {
    match th
    case Waiting(b) => FromDaemon(t, b)
    case Locked(b) => FromDaemon(t, b)
    case Running(b, done, _, _, _, failed) => FromDaemon(t, b) && !failed && done <= |b|
    case _ => true
  }

  ghost predicate DaemonLog(t: Table, log: seq<Entry>) {
    forall i :: 0 <= i < |log| ==> log[i].ok && log[i].done == |log[i].batch| && FromDaemon(t, log[i].batch)
  }

  lemma {:induction false} OnlyDaemonBatches(t: Table, hw: Hw, n: nat, steps: seq<Step>)
    requires DaemonSteps(t, steps) && Run(Boot(hw, n), steps).Some?
    ensures var s := Run(Boot(hw, n), steps).value;
            DaemonLog(t, s.log) && forall i :: 0 <= i < |s.threads| ==> Busy(t, s.threads[i])
  {
    if steps != [] {
      OnlyDaemonBatches(t, hw, n, steps[..|steps| - 1]);
    }
  }

  // ---- What one batch does to a pair ----

  function Pair(m: Memory, a: u16, b: u16): (byte, byte) { (m[a], m[b]) }

  lemma {:induction false} OpsLeave(m: Memory, ops: Batch, a: u16)
    requires NeverPokes(ops, a)
    ensures MemAfter(m, ops)[a] == m[a]
  {
    if ops != [] {
      OpsLeave(m, ops[..|ops| - 1], a);
    }
  }

  lemma {:induction false} ReadsOnlyRead(addrs: seq<u16>)
    ensures forall i :: 0 <= i < |Reads(addrs)| ==> Reads(addrs)[i].Peek?
  {
    if addrs != [] {
      ReadsOnlyRead(addrs[1..]);
    }
  }

  lemma TwoPokes(m: Memory, a: u16, x: byte, b: u16, y: byte)
    requires a != b
    ensures Pair(MemAfter(m, [Poke(a, x), Poke(b, y)]), a, b) == (x, y)
  {
    MemAfterExtend(m, [Poke(a, x), Poke(b, y)], 0);
    MemAfterExtend(m, [Poke(a, x), Poke(b, y)], 1);
    assert [Poke(a, x), Poke(b, y)][..2] == [Poke(a, x), Poke(b, y)];
  }

  ghost predicate NeverPokes(b: Batch, a: u16) {
    forall i :: 0 <= i < |b| && b[i].Poke? ==> b[i].addr != a
  }

  lemma PokesAvoid(t: Table, acts: seq<Act>, f: Feature, reg: Reg)
    requires Distinct(t) && (forall i :: 0 <= i < |acts| ==> acts[i].Write?) && Within(acts, f) && Owner(reg) != f
    ensures NeverPokes(Pokes(t, acts), t(reg))
  {
  }

  lemma JobAvoids(t: Table, job: Job, reg: Reg)
    requires Distinct(t) && Allowed(job) && (Owner(reg) == Charge || Owner(reg).Fan?)
    requires (job.SetFan? ==> Owner(reg) != Fan(job.fan)) && (job.SetLimit? ==> Owner(reg) != Charge)
    ensures NeverPokes(BatchOf(t, job), t(reg))
  {
    match job {
      case Look(addrs) => ReadsOnlyRead(addrs);
      case SetFan(fan, mode) => PokesAvoid(t, FanActs(fan, mode), Fan(fan), reg);
      case SetLimit(limit) => PokesAvoid(t, ChargeActs(limit), Charge, reg);
      case KeyboardCustom(v) => PokesAvoid(t, KeyboardActs(KeyboardLevel.Custom(v)), Keyboard, reg);
      case ResetEngine => PokesAvoid(t, RESET_ENGINE, Led, reg);
      case WriteOne(other, val) => assert other != reg;
    }
  }

  lemma JobOnPair(t: Table, m: Memory, job: Job, x: Reg, y: Reg)
    requires Distinct(t) && Allowed(job) && Owner(x) == Owner(y) && (Owner(x) == Charge || Owner(x).Fan?)
    requires (job.SetFan? ==> Owner(x) != Fan(job.fan)) && (job.SetLimit? ==> Owner(x) != Charge)
    ensures Pair(MemAfter(m, BatchOf(t, job)), t(x), t(y)) == Pair(m, t(x), t(y))
  {
    JobAvoids(t, job, x);
    JobAvoids(t, job, y);
    OpsLeave(m, BatchOf(t, job), t(x));
    OpsLeave(m, BatchOf(t, job), t(y));
  }

  lemma EntryEffect(m: Memory, e: Entry)
    requires e.done == |e.batch|
    ensures Effect(m, e) == MemAfter(m, e.batch)
  {
    assert e.batch[..e.done] == e.batch;
  }

  // ---- Fans ----

  ghost predicate FanRequested(t: Table, log: seq<Entry>, fan: FanIndex, pair: (byte, byte)) {
    exists i, mode :: 0 <= i < |log| && SetsFan(t, log[i].batch, fan, mode, pair)
  }

  lemma SetFanSets(t: Table, m: Memory, fan: FanIndex, mode: FanMode)
    requires Distinct(t)
    ensures Pair(MemAfter(m, BatchOf(t, SetFan(fan, mode))), t(Policy(fan)), t(Duty(fan))) == FanPair(mode)
  {
    var (policy, duty) := FanPair(mode);
    assert BatchOf(t, SetFan(fan, mode)) == [Poke(t(Policy(fan)), policy), Poke(t(Duty(fan)), duty)];
    TwoPokes(m, t(Policy(fan)), policy, t(Duty(fan)), duty);
  }

  /** A fan's pair after one job. */
  lemma FanPairAfterJob(t: Table, m: Memory, job: Job, fan: FanIndex)
    requires Distinct(t) && Allowed(job)
    ensures Pair(MemAfter(m, BatchOf(t, job)), t(Policy(fan)), t(Duty(fan)))
            == if job.SetFan? && job.fan == fan then FanPair(job.mode) else Pair(m, t(Policy(fan)), t(Duty(fan)))
  {
    if job.SetFan? && job.fan == fan {
      SetFanSets(t, m, fan, job.mode);
    } else {
      JobOnPair(t, m, job, Policy(fan), Duty(fan));
    }
  }

  /** The batch sets the fan to a mode whose pair is `p`. */
  ghost predicate SetsFan(t: Table, b: Batch, fan: FanIndex, mode: FanMode, p: (byte, byte)) {
    b == BatchOf(t, SetFan(fan, mode)) && FanAllowed(mode) && p == FanPair(mode)
  }

  lemma FanPairAfterEntry(t: Table, m: Memory, e: Entry, fan: FanIndex)
    requires Distinct(t) && FromDaemon(t, e.batch) && e.done == |e.batch|
    ensures var p := Pair(Effect(m, e), t(Policy(fan)), t(Duty(fan)));
            p == Pair(m, t(Policy(fan)), t(Duty(fan))) || exists mode :: SetsFan(t, e.batch, fan, mode, p)
  {
    EntryEffect(m, e);
    var job :| Allowed(job) && e.batch == BatchOf(t, job);
    FanPairAfterJob(t, m, job, fan);
    if job.SetFan? && job.fan == fan {
      assert SetsFan(t, e.batch, fan, job.mode, FanPair(job.mode));
    }
  }

  lemma RequestedStays(t: Table, log: seq<Entry>, fan: FanIndex, p: (byte, byte))
    requires log != [] && FanRequested(t, log[..|log| - 1], fan, p)
    ensures FanRequested(t, log, fan, p)
  {
    var rest := log[..|log| - 1];
    var i, mode :| 0 <= i < |rest| && SetsFan(t, rest[i].batch, fan, mode, p);
    assert SetsFan(t, log[i].batch, fan, mode, p);
  }

  lemma {:induction false} FanPairAfterLog(t: Table, m: Memory, log: seq<Entry>, fan: FanIndex)
    requires Distinct(t) && DaemonLog(t, log)
    ensures var p := Pair(Replay(m, log), t(Policy(fan)), t(Duty(fan)));
            p == Pair(m, t(Policy(fan)), t(Duty(fan))) || FanRequested(t, log, fan, p)
  {
    if log != [] {
      var rest, last := log[..|log| - 1], |log| - 1;
      FanPairAfterLog(t, m, rest, fan);
      FanPairAfterEntry(t, Replay(m, rest), log[last], fan);
      if p: (byte, byte) :| FanRequested(t, rest, fan, p) && p == Pair(Replay(m, rest), t(Policy(fan)), t(Duty(fan))) {
        RequestedStays(t, log, fan, p);
      }
    }
  }

  /**
   * Whenever the I/O lock is free, each fan's registers hold their initial pair or exactly the pair
   * of one requested mode - never a mix of two requests, and never a duty over 220.
   */
  lemma FanPairsNeverMix(t: Table, hw: Hw, n: nat, steps: seq<Step>, fan: FanIndex)
    requires Distinct(t) && DaemonSteps(t, steps) && Run(Boot(hw, n), steps).Some?
    requires Run(Boot(hw, n), steps).value.holder.None?
    ensures var s := Run(Boot(hw, n), steps).value;
            var p := Pair(s.hw.mem, t(Policy(fan)), t(Duty(fan)));
            p == Pair(hw.mem, t(Policy(fan)), t(Duty(fan))) || (FanRequested(t, s.log, fan, p) && p.1 <= MAX_DUTY)
  {
    OnlyDaemonBatches(t, hw, n, steps);
    EveryInterleavingIsSerial(hw, n, steps);
    FanPairAfterLog(t, hw.mem, Run(Boot(hw, n), steps).value.log, fan);
  }

  // ---- The charge limit, read with two separate locks ----

  function Limits(t: Table, m: Memory): (byte, byte) { Pair(m, t(LimitMin), t(LimitMax)) }

  predicate Predefined(p: (byte, byte)) { FromPredefined(p.0, p.1).Some? }

  lemma PredefinedOfLimit(limit: ChargeLimit)
    ensures Predefined(limit.AsPercent())
  {
    FromPredefinedInverts(limit.AsPercent().0, limit.AsPercent().1, limit);
  }

  lemma LimitsAfterEntry(t: Table, m: Memory, e: Entry)
    requires Distinct(t) && FromDaemon(t, e.batch) && e.done == |e.batch|
    ensures Limits(t, Effect(m, e)) == Limits(t, m) || Predefined(Limits(t, Effect(m, e)))
  {
    EntryEffect(m, e);
    var job :| Allowed(job) && e.batch == BatchOf(t, job);
    LimitsAfterJob(t, m, job);
  }

  lemma LimitsAfterJob(t: Table, m: Memory, job: Job)
    requires Distinct(t) && Allowed(job)
    ensures var p := Limits(t, MemAfter(m, BatchOf(t, job))); p == Limits(t, m) || Predefined(p)
  {
    if job.SetLimit? {
      SetLimitSets(t, m, job.limit);
      PredefinedOfLimit(job.limit);
    } else {
      JobOnPair(t, m, job, LimitMin, LimitMax);
    }
  }

  /** Between two points of a run the pair stays what it was, or becomes a predefined one. */
  lemma {:induction false} LimitsBetween(t: Table, m: Memory, log: seq<Entry>, i: nat)
    requires Distinct(t) && DaemonLog(t, log) && i <= |log|
    ensures DaemonLog(t, log[..i])
    ensures Predefined(Limits(t, Replay(m, log))) || Limits(t, Replay(m, log)) == Limits(t, Replay(m, log[..i]))
  {
    if i == |log| {
      assert log[..i] == log;
    } else {
      var rest, last := log[..|log| - 1], log[|log| - 1];
      LimitsBetween(t, m, rest, i);
      assert rest[..i] == log[..i];
      LimitsAfterEntry(t, Replay(m, rest), last);
    }
  }

  /** Minima and maxima of the predefined limits are pairwise different. */
  lemma HalvesIdentifyTheLimit(a: ChargeLimit, b: ChargeLimit)
    ensures a.AsPercent().0 == b.AsPercent().0 <==> a == b
    ensures a.AsPercent().1 == b.AsPercent().1 <==> a == b
  {
  }

  ghost predicate ReadsOne(e: Entry, a: u16) { e.batch == [Peek(a)] && e.ok }

  lemma SingleRead(m: Memory, log: seq<Entry>, i: nat, a: u16)
    requires WholeEntries(log) && Serial(m, log) && i < |log| && ReadsOne(log[i], a)
    ensures log[i].got == [Replay(m, log[..i])[a]]
  {
    assert log[i].batch[..1] == [Peek(a)] && [Peek(a)][..0] == [];
    assert log[i].got == Got(Replay(m, log[..i]), [Peek(a)]);
  }

  /**
   * `read_charge_limit` takes the lock twice, so other threads may set the limit in between. What it
   * decodes to is nothing, or the limit in force at the second read; and that one was also in force
   * at the first read exactly when the pair in force then was a predefined one.
   */
  lemma TornLimitReadNeverMixes(t: Table, hw: Hw, n: nat, steps: seq<Step>, i: nat, j: nat)
    requires Distinct(t) && DaemonSteps(t, steps) && Run(Boot(hw, n), steps).Some?
    requires var log := Run(Boot(hw, n), steps).value.log;
             i < j < |log| && ReadsOne(log[i], t(LimitMin)) && ReadsOne(log[j], t(LimitMax))
    ensures var log := Run(Boot(hw, n), steps).value.log;
            && WholeEntries(log) && WholeEntries(log[..i]) && WholeEntries(log[..j]) && |log[i].got| == 1
            && |log[j].got| == 1
            && var read := FromPredefined(log[i].got[0], log[j].got[0]);
               read.Some? ==>
                 && read.value.AsPercent() == Limits(t, Replay(hw.mem, log[..j]))
                 && (read.value.AsPercent() == Limits(t, Replay(hw.mem, log[..i]))
                     <==> Predefined(Limits(t, Replay(hw.mem, log[..i]))))
  {
    OnlyDaemonBatches(t, hw, n, steps);
    EveryInterleavingIsSerial(hw, n, steps);
    var log := Run(Boot(hw, n), steps).value.log;
    SingleRead(hw.mem, log, i, t(LimitMin));
    SingleRead(hw.mem, log, j, t(LimitMax));
    LimitsBetween(t, hw.mem, log[..j], i);
    assert log[..j][..i] == log[..i];
    var p, q := Limits(t, Replay(hw.mem, log[..i])), Limits(t, Replay(hw.mem, log[..j]));
    PairsReadApart(p, q);
  }

  lemma SetLimitSets(t: Table, m: Memory, limit: ChargeLimit)
    requires Distinct(t)
    ensures Limits(t, MemAfter(m, BatchOf(t, SetLimit(limit)))) == limit.AsPercent()
  {
    var (min, max) := limit.AsPercent();
    assert BatchOf(t, SetLimit(limit)) == [Poke(t(LimitMin), min), Poke(t(LimitMax), max)];
    TwoPokes(m, t(LimitMin), min, t(LimitMax), max);
  }

  /** Thread 0 reads the two halves while thread 1 sets `limit` in between. */
  function TornRead(t: Table, limit: ChargeLimit): seq<(nat, Batch)> {
    [(0, [Peek(t(LimitMin))]), (1, BatchOf(t, SetLimit(limit))), (0, [Peek(t(LimitMax))])]
  }

  /** Memory after the batches of `orders`, each at once. */
  function MemoryAfter(m: Memory, orders: seq<(nat, Batch)>): Memory {
    if orders == [] then m else MemAfter(MemoryAfter(m, orders[..|orders| - 1]), orders[|orders| - 1].1)
  }

  lemma {:induction false} SerialPrefix(m: Memory, orders: seq<(nat, Batch)>, k: nat)
    requires k <= |orders|
    ensures SerialLog(m, orders)[..k] == SerialLog(m, orders[..k])
  {
    if k == |orders| {
      assert orders[..k] == orders;
    } else {
      SerialPrefix(m, orders[..|orders| - 1], k);
      assert orders[..|orders| - 1][..k] == orders[..k];
    }
  }

  lemma {:induction false} SerialMemory(m: Memory, orders: seq<(nat, Batch)>)
    ensures Replay(m, SerialLog(m, orders)) == MemoryAfter(m, orders)
  {
    if orders != [] {
      SerialMemory(m, orders[..|orders| - 1]);
      var log := SerialLog(m, orders);
      assert log[..|log| - 1] == SerialLog(m, orders[..|orders| - 1]);
      EntryEffect(MemoryAfter(m, orders[..|orders| - 1]), log[|log| - 1]);
    }
  }

  /** The `k`-th entry of a serial log and the memory it finds. */
  lemma SerialEntry(m: Memory, orders: seq<(nat, Batch)>, k: nat)
    requires k < |orders|
    ensures var log := SerialLog(m, orders);
            && log[k].tid == orders[k].0 && log[k].batch == orders[k].1 && log[k].ok && WholeEntries(log[..k])
            && Replay(m, log[..k]) == MemoryAfter(m, orders[..k])
  {
    SerialPrefix(m, orders, k);
    SerialPrefix(m, orders, k + 1);
    SerialMemory(m, orders[..k]);
    assert orders[..k + 1][..k] == orders[..k];
    SerialLogStep(m, orders[..k + 1]);
    assert SerialLog(m, orders)[k] == SerialLog(m, orders)[..k + 1][k];
  }

  lemma TornReadMemory(t: Table, m: Memory, limit: ChargeLimit)
    requires Distinct(t)
    ensures var orders := TornRead(t, limit);
            MemoryAfter(m, orders[..0]) == m && Limits(t, MemoryAfter(m, orders[..2])) == limit.AsPercent()
  {
    var orders := TornRead(t, limit);
    assert orders[..2][..1] == orders[..1] && orders[..0] == [];
    SetLimitSets(t, MemoryAfter(m, orders[..1]), limit);
  }

  lemma LookAtOne(t: Table, a: u16)
    ensures FromDaemon(t, [Peek(a)])
  {
    assert [a][1..] == [] && Reads([a][1..]) == [];
    assert Reads([a]) == [Peek([a][0])] + Reads([a][1..]);
    assert Allowed(Look([a])) && BatchOf(t, Look([a])) == [Peek(a)];
  }

  lemma OnlyTornRead(t: Table, limit: ChargeLimit, steps: seq<Step>)
    requires AsksFor(steps, TornRead(t, limit))
    ensures DaemonSteps(t, steps)
  {
    LookAtOne(t, t(LimitMin));
    LookAtOne(t, t(LimitMax));
    assert Allowed(SetLimit(limit));
    assert FromDaemon(t, [Peek(t(LimitMin))]) && FromDaemon(t, [Peek(t(LimitMax))])
        && FromDaemon(t, BatchOf(t, SetLimit(limit)));
  }

  /**
   * The condition on the first read is needed: if the chip starts with the minimum of some limit beside
   * another maximum, a run exists in which that limit is read although it was not in force at first.
   */
  lemma TornReadCanMissTheFirst(t: Table, hw: Hw, limit: ChargeLimit) returns (steps: seq<Step>)
    requires Distinct(t) && hw.mem[t(LimitMin)] == limit.AsPercent().0 && hw.mem[t(LimitMax)] != limit.AsPercent().1
    ensures DaemonSteps(t, steps) && Run(Boot(hw, 2), steps).Some?
    ensures var log := Run(Boot(hw, 2), steps).value.log;
            && |log| == 3 && ReadsOne(log[0], t(LimitMin)) && ReadsOne(log[2], t(LimitMax))
            && log[0].tid == log[2].tid && |log[0].got| == 1 && |log[2].got| == 1
            && FromPredefined(log[0].got[0], log[2].got[0]) == Some(limit) && Limits(t, hw.mem) != limit.AsPercent()
  {
    steps := EverySerialOrderHappens(hw, 2, TornRead(t, limit));
    OnlyTornRead(t, limit, steps);
    var log := Run(Boot(hw, 2), steps).value.log;
    var orders := TornRead(t, limit);
    SerialEntry(hw.mem, orders, 0);
    SerialEntry(hw.mem, orders, 2);
    TornReadMemory(t, hw.mem, limit);
    SingleRead(hw.mem, log, 0, t(LimitMin));
    SingleRead(hw.mem, log, 2, t(LimitMax));
    FromPredefinedInverts(limit.AsPercent().0, limit.AsPercent().1, limit);
  }

  lemma PairsReadApart(p: (byte, byte), q: (byte, byte))
    requires Predefined(q) || p == q
    ensures var read := FromPredefined(p.0, q.1);
            read.Some? ==> read.value.AsPercent() == q && (read.value.AsPercent() == p <==> Predefined(p))
  {
    var read := FromPredefined(p.0, q.1);
    if read.Some? {
      FromPredefinedInverts(p.0, q.1, read.value);
      if Predefined(q) {
        FromPredefinedInverts(q.0, q.1, FromPredefined(q.0, q.1).value);
        HalvesIdentifyTheLimit(read.value, FromPredefined(q.0, q.1).value);
      }
      if Predefined(p) {
        FromPredefinedInverts(p.0, p.1, FromPredefined(p.0, p.1).value);
        HalvesIdentifyTheLimit(read.value, FromPredefined(p.0, p.1).value);
      }
    }
  }

  // ---- The keyboard level, read with two separate locks ----

  const CUSTOM_CODE := 0xFF

  /** The keyboard registers hold the custom level `v`. */
  ghost predicate CustomInForce(t: Table, m: Memory, v: byte) { m[t(Kbd)] == CUSTOM_CODE && m[t(KbdVal)] == v }

  lemma KeyboardBatchSets(t: Table, m: Memory, v: byte)
    requires Distinct(t)
    ensures CustomInForce(t, MemAfter(m, BatchOf(t, KeyboardCustom(v))), v)
  {
    var b := BatchOf(t, KeyboardCustom(v));
    assert b == [Poke(t(KbdTimeout), 0xFF), Poke(t(A4Mux), 0x00), Poke(t(Kbd), CUSTOM_CODE), Poke(t(KbdVal), v)];
    MemAfterExtend(m, b, 2);
    MemAfterExtend(m, b, 3);
    assert b[..4] == b;
  }

  lemma OthersLeaveTheValue(t: Table, job: Job)
    requires Distinct(t) && Allowed(job) && !job.KeyboardCustom?
    ensures NeverPokes(BatchOf(t, job), t(KbdVal))
  {
    match job {
      case Look(addrs) => ReadsOnlyRead(addrs);
      case SetFan(fan, mode) => PokesAvoid(t, FanActs(fan, mode), Fan(fan), KbdVal);
      case SetLimit(limit) => PokesAvoid(t, ChargeActs(limit), Charge, KbdVal);
      case ResetEngine => PokesAvoid(t, RESET_ENGINE, Led, KbdVal);
      case WriteOne(other, val) => assert other != KbdVal;
    }
  }

  /** A batch leaves the custom value alone or puts a custom level in force. */
  lemma ValueAfterEntry(t: Table, m: Memory, e: Entry)
    requires Distinct(t) && FromDaemon(t, e.batch) && e.done == |e.batch|
    ensures Effect(m, e)[t(KbdVal)] == m[t(KbdVal)] || CustomInForce(t, Effect(m, e), Effect(m, e)[t(KbdVal)])
  {
    EntryEffect(m, e);
    var job :| Allowed(job) && e.batch == BatchOf(t, job);
    if job.KeyboardCustom? {
      KeyboardBatchSets(t, m, job.v);
    } else {
      OthersLeaveTheValue(t, job);
      OpsLeave(m, e.batch, t(KbdVal));
    }
  }

  /** The `k`-th batch leaves the custom value alone or puts a custom level in force. */
  lemma ValueStep(t: Table, m: Memory, log: seq<Entry>, k: nat)
    requires Distinct(t) && DaemonLog(t, log) && k < |log|
    ensures WholeEntries(log[..k]) && WholeEntries(log[..k + 1])
    ensures var v := Replay(m, log[..k + 1])[t(KbdVal)];
            Replay(m, log[..k])[t(KbdVal)] == v || CustomInForce(t, Replay(m, log[..k + 1]), v)
  {
    assert log[..k + 1][..k] == log[..k];
    ValueAfterEntry(t, Replay(m, log[..k]), log[k]);
  }

  /** Between `i` and `k` the value did not change, or a custom level with the present value was in force. */
  lemma {:induction false} ValueBetween(t: Table, m: Memory, log: seq<Entry>, i: nat, k: nat) returns (n: nat)
    requires Distinct(t) && DaemonLog(t, log) && i <= k <= |log|
    ensures i <= n <= k
    ensures var v := Replay(m, log[..k])[t(KbdVal)];
            Replay(m, log[..i])[t(KbdVal)] == v || CustomInForce(t, Replay(m, log[..n]), v)
  {
    n := k;
    if i < k {
      ValueStep(t, m, log, k - 1);
      if Replay(m, log[..k])[t(KbdVal)] == Replay(m, log[..k - 1])[t(KbdVal)] {
        n := ValueBetween(t, m, log, i, k - 1);
      }
    }
  }

  /**
   * `read_keyboard_backlight` takes the lock twice for a custom level. The level it reports was in force
   * at some moment from the first reading to the second.
   */
  lemma TornKeyboardReadWasInForce(t: Table, hw: Hw, n: nat, steps: seq<Step>, i: nat, j: nat) returns (k: nat)
    requires Distinct(t) && DaemonSteps(t, steps) && Run(Boot(hw, n), steps).Some?
    requires var log := Run(Boot(hw, n), steps).value.log;
             i < j < |log| && ReadsOne(log[i], t(Kbd)) && ReadsOne(log[j], t(KbdVal)) && log[i].got == [CUSTOM_CODE]
    ensures var log := Run(Boot(hw, n), steps).value.log;
            && i <= k <= j && WholeEntries(log[..k]) && |log[j].got| == 1
            && CustomInForce(t, Replay(hw.mem, log[..k]), log[j].got[0])
  {
    OnlyDaemonBatches(t, hw, n, steps);
    EveryInterleavingIsSerial(hw, n, steps);
    var log := Run(Boot(hw, n), steps).value.log;
    SingleRead(hw.mem, log, i, t(Kbd));
    SingleRead(hw.mem, log, j, t(KbdVal));
    k := ValueBetween(t, hw.mem, log, i, j);
    if Replay(hw.mem, log[..i])[t(KbdVal)] == log[j].got[0] {
      k := i;
    }
  }

  /** Thread 0 reads the level and the value; in between thread 1 sets a custom level and another one again. */
  function TornKeyboardRead(t: Table, v: byte, code: byte): seq<(nat, Batch)> {
    [(0, [Peek(t(Kbd))]), (1, BatchOf(t, KeyboardCustom(v))), (1, BatchOf(t, WriteOne(Kbd, code))),
     (0, [Peek(t(KbdVal))])]
  }

  lemma OnlyTornKeyboardRead(t: Table, v: byte, code: byte, steps: seq<Step>)
    requires AsksFor(steps, TornKeyboardRead(t, v, code))
    ensures DaemonSteps(t, steps)
  {
    LookAtOne(t, t(Kbd));
    LookAtOne(t, t(KbdVal));
    assert Allowed(KeyboardCustom(v)) && Allowed(WriteOne(Kbd, code));
    assert FromDaemon(t, [Peek(t(Kbd))]) && FromDaemon(t, [Peek(t(KbdVal))]);
    assert FromDaemon(t, BatchOf(t, KeyboardCustom(v))) && FromDaemon(t, BatchOf(t, WriteOne(Kbd, code)));
  }

  lemma TornKeyboardMemory(t: Table, m: Memory, v: byte, code: byte)
    requires Distinct(t)
    ensures var orders := TornKeyboardRead(t, v, code);
            && MemoryAfter(m, orders[..0]) == m
            && MemoryAfter(m, orders[..3])[t(Kbd)] == code && MemoryAfter(m, orders[..3])[t(KbdVal)] == v
  {
    var orders := TornKeyboardRead(t, v, code);
    assert orders[..3][..2] == orders[..2] && orders[..2][..1] == orders[..1] && orders[..1][..0] == orders[..0] == [];
    var m2 := MemoryAfter(m, orders[..2]);
    KeyboardBatchSets(t, MemoryAfter(m, orders[..1]), v);
    assert [Poke(t(Kbd), code)][..0] == [];
    assert MemoryAfter(m, orders[..3]) == MemAfter(m2, [Poke(t(Kbd), code)]) == m2[t(Kbd) := code];
  }

  /** That moment need be neither of the readings: a run in which the reported level is in force at neither. */
  lemma TornKeyboardReadCanMissBoth(t: Table, hw: Hw, v: byte, code: byte) returns (steps: seq<Step>)
    requires Distinct(t) && hw.mem[t(Kbd)] == CUSTOM_CODE && hw.mem[t(KbdVal)] != v && code != CUSTOM_CODE
    ensures DaemonSteps(t, steps) && Run(Boot(hw, 2), steps).Some?
    ensures var log := Run(Boot(hw, 2), steps).value.log;
            && |log| == 4 && ReadsOne(log[0], t(Kbd)) && ReadsOne(log[3], t(KbdVal)) && WholeEntries(log[..3])
            && log[0].tid == log[3].tid
            && log[0].got == [CUSTOM_CODE] && log[3].got == [v]
            && !CustomInForce(t, hw.mem, v) && !CustomInForce(t, Replay(hw.mem, log[..3]), v)
  {
    var orders := TornKeyboardRead(t, v, code);
    steps := EverySerialOrderHappens(hw, 2, orders);
    OnlyTornKeyboardRead(t, v, code, steps);
    var log := Run(Boot(hw, 2), steps).value.log;
    SerialEntry(hw.mem, orders, 0);
    SerialEntry(hw.mem, orders, 3);
    TornKeyboardMemory(t, hw.mem, v, code);
    SingleRead(hw.mem, log, 0, t(Kbd));
    SingleRead(hw.mem, log, 3, t(KbdVal));
  }
}
