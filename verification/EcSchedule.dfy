/**
 * `EcDevice::with_batch` under an arbitrary scheduler.
 *
 * Any number of threads ask for batches, queue for the I/O mutex, stamp the watchdog marker, drive
 * the ports one step at a time, unlock and clear the marker. Any port step may fail; the batch
 * then ends where it stands. `Next` is one scheduler step, `Run` a whole interleaving.
 */
module EcSchedule {
  import opened Bytes
  import opened EcPort

  type Batch = seq<RegOp>

  datatype Thread =
    | Idle
    | Waiting(batch: Batch)
    | Locked(batch: Batch)
      // `done` register accesses finished, `pc` port steps into the next one, which began from `start`
    | Running(batch: Batch, done: nat, pc: nat, start: Hw, got: seq<byte>, failed: bool)
      // the mutex is free again but the marker has not been cleared yet
    | Releasing

  /** A batch that has given the lock back: how much of it ran, what it read, whether it succeeded. */
  datatype Entry = Entry(tid: nat, batch: Batch, done: nat, got: seq<byte>, ok: bool)

  datatype Stamp = Never | By(tid: nat, time: nat)

  datatype System = System(
    hw: Hw,
    holder: Option<nat>,
    marker: nat,                // lock_held_since_ms
    threads: seq<Thread>,
    log: seq<Entry>,            // history: batches in the order they held the lock
    asked: seq<(nat, Batch)>,   // history: batches in the order they were asked for
    stamp: Stamp,               // history: the latest store of a start time
    clearedSince: bool          // history: a clear happened after that store
  )

  datatype Step =
    | Request(t: nat, batch: Batch)
    | Acquire(t: nat)
    | StampTime(t: nat, now: nat)
    | Port(t: nat, fault: bool)
    | Release(t: nat)
    | Clear(t: nat)

  function Finished(th: Thread): bool
    requires th.Running?
  {
    th.failed || th.done >= |th.batch|
  }

  /** One port step of a running batch. */
  function Drive(hw: Hw, th: Thread): (Hw, Thread)
    requires th.Running? && !Finished(th) && th.pc < 12
  {
    var op := th.batch[th.done];
    var hw' := PortStep(hw, Transaction(hw.base, op)[th.pc]);
    if th.pc < 11 then (hw', th.(pc := th.pc + 1))
    else (hw', th.(done := th.done + 1, pc := 0, start := hw',
                   got := if op.Peek? then th.got + [InValue(hw, hw.base + 1)] else th.got))
  }

  function Next(s: System, step: Step): Option<System> {
    if step.t >= |s.threads| then None else
    var th := s.threads[step.t];
    match step
    case Request(t, b) =>
      if th.Idle? then Some(s.(threads := s.threads[t := Waiting(b)], asked := s.asked + [(t, b)])) else None
    case Acquire(t) =>
      if th.Waiting? && s.holder.None?
      then Some(s.(threads := s.threads[t := Locked(th.batch)], holder := Some(t))) else None
    case StampTime(t, now) =>
      if th.Locked?
      then Some(s.(threads := s.threads[t := Running(th.batch, 0, 0, s.hw, [], false)],
                   marker := now, stamp := By(t, now), clearedSince := false)) else None
    case Port(t, fault) =>
      if !th.Running? || Finished(th) || th.pc >= 12 then None
      else if fault then Some(s.(threads := s.threads[t := th.(failed := true)]))
      else var (hw', th') := Drive(s.hw, th); Some(s.(hw := hw', threads := s.threads[t := th']))
    case Release(t) =>
      if th.Running? && Finished(th)
      then Some(s.(threads := s.threads[t := Releasing], holder := None,
                   log := s.log + [EntryOf(t, th)])) else None
    case Clear(t) =>
      if th.Releasing? then Some(s.(threads := s.threads[t := Idle], marker := 0, clearedSince := true)) else None
  }

  function Run(s: System, steps: seq<Step>): Option<System> {
    if steps == [] then Some(s)
    else match Run(s, steps[..|steps| - 1])
         case None => None
         case Some(s') => Next(s', steps[|steps| - 1])
  }

  function Boot(hw: Hw, n: nat): System {
    System(hw, None, 0, seq(n, _ => Idle), [], [], Never, false)
  }

  // ---- The atomic register file ----

  function MemAfter(m: Memory, ops: Batch): Memory {
    if ops == [] then m else MemStep(MemAfter(m, ops[..|ops| - 1]), ops[|ops| - 1])
  }

  function Got(m: Memory, ops: Batch): seq<byte> {
    if ops == [] then [] else
    var rest, last := ops[..|ops| - 1], ops[|ops| - 1];
    Got(m, rest) + if last.Peek? then [MemAfter(m, rest)[last.addr]] else []
  }

  /** What `e` did to memory, had it run alone and at once. */
  function Effect(m: Memory, e: Entry): Memory
    requires e.done <= |e.batch|
  {
    MemAfter(m, e.batch[..e.done])
  }

  ghost predicate WholeEntries(log: seq<Entry>) {
    forall i :: 0 <= i < |log| ==> log[i].done <= |log[i].batch|
  }

  /** The batches of `log` run one after another, each at once. */
  function Replay(m: Memory, log: seq<Entry>): Memory
    requires WholeEntries(log)
  {
    if log == [] then m else Effect(Replay(m, log[..|log| - 1]), log[|log| - 1])
  }

  /** Every batch got exactly the values the serial execution gives it, and a successful one ran to its end. */
  ghost predicate Serial(m: Memory, log: seq<Entry>)
    requires WholeEntries(log)
  {
    forall i :: 0 <= i < |log| ==>
      && log[i].got == Got(Replay(m, log[..i]), log[i].batch[..log[i].done])
      && (log[i].ok <==> log[i].done == |log[i].batch|)
  }

  // ---- The invariant ----

  ghost predicate HasLock(th: Thread) { th.Locked? || th.Running? }

  /** A batch in progress, over the memory `m` it found when it took the lock. */
  ghost predicate InProgress(m: Memory, hw: Hw, th: Thread)
    requires th.Running?
  {
    && th.done <= |th.batch|
    && th.pc < 12
    && (th.failed ==> th.done < |th.batch|)
    && th.start.base == hw.base
    && th.start.mem == MemAfter(m, th.batch[..th.done])
    && th.got == Got(m, th.batch[..th.done])
    && hw == if th.done < |th.batch| then RunPorts(th.start, Transaction(hw.base, th.batch[th.done])[..th.pc])
             else th.start
  }

  ghost predicate LockInv(m: Memory, s: System) {
    && WholeEntries(s.log)
    && Serial(m, s.log)
    && (forall t :: 0 <= t < |s.threads| ==> (HasLock(s.threads[t]) <==> s.holder == Some(t)))
    && (s.holder.Some? ==> s.holder.value < |s.threads|)
    && (match s.holder
        case Some(t) =>
          if s.threads[t].Running? then InProgress(Replay(m, s.log), s.hw, s.threads[t])
          else s.hw.mem == Replay(m, s.log)
        case None => s.hw.mem == Replay(m, s.log))
  }

  lemma MemAfterExtend(m: Memory, ops: Batch, k: nat)
    requires k < |ops|
    ensures MemAfter(m, ops[..k + 1]) == MemStep(MemAfter(m, ops[..k]), ops[k])
    ensures Got(m, ops[..k + 1]) == Got(m, ops[..k]) + if ops[k].Peek? then [MemAfter(m, ops[..k])[ops[k].addr]] else []
  {
    assert ops[..k + 1][..k] == ops[..k];
  }

  /** A port step inside a transaction. */
  lemma DriveInside(m: Memory, hw: Hw, th: Thread)
    requires th.Running? && InProgress(m, hw, th) && !Finished(th) && th.pc < 11
    ensures var (hw', th') := Drive(hw, th); InProgress(m, hw', th') && hw'.base == hw.base
  {
    var op := th.batch[th.done];
    RunPortsExtend(th.start, Transaction(hw.base, op), th.pc);
    PartialTransactionLeavesMemory(th.start, op, th.pc + 1);
  }

  /** The hardware after the last port step of the transaction for `op`. */
  lemma LastPortStep(start: Hw, hw: Hw, op: RegOp)
    requires start.base == hw.base && hw == RunPorts(start, Transaction(hw.base, op)[..11])
    ensures var hw' := PortStep(hw, Transaction(hw.base, op)[11]);
            && hw'.mem == MemStep(start.mem, op) && hw'.base == hw.base
            && (op.Peek? ==> InValue(hw, hw.base + 1) == start.mem[op.addr])
  {
    var ops := Transaction(hw.base, op);
    RunPortsExtend(start, ops, 11);
    assert ops[..12] == ops;
    TransactionEffect(start, op);
  }

  /** The last port step of a transaction. */
  lemma DriveToEnd(m: Memory, hw: Hw, th: Thread)
    requires th.Running? && InProgress(m, hw, th) && !Finished(th) && th.pc == 11
    ensures var (hw', th') := Drive(hw, th); InProgress(m, hw', th') && hw'.base == hw.base
  {
    LastPortStep(th.start, hw, th.batch[th.done]);
    MemAfterExtend(m, th.batch, th.done);
    if th.done + 1 < |th.batch| {
      assert Transaction(hw.base, th.batch[th.done + 1])[..0] == [];
    }
  }

  lemma DriveKeepsProgress(m: Memory, hw: Hw, th: Thread)
    requires th.Running? && InProgress(m, hw, th) && !Finished(th)
    ensures var (hw', th') := Drive(hw, th); InProgress(m, hw', th') && hw'.base == hw.base
  {
    if th.pc < 11 {
      DriveInside(m, hw, th);
    } else {
      DriveToEnd(m, hw, th);
    }
  }

  /** A batch that has stopped, even in the middle of a transaction, left only its finished accesses behind. */
  lemma StoppedMemory(m: Memory, hw: Hw, th: Thread)
    requires th.Running? && InProgress(m, hw, th)
    ensures hw.mem == MemAfter(m, th.batch[..th.done])
  {
    if th.done < |th.batch| {
      PartialTransactionLeavesMemory(th.start, th.batch[th.done], th.pc);
    }
  }

  lemma SerialExtend(m: Memory, log: seq<Entry>, e: Entry)
    requires WholeEntries(log) && Serial(m, log) && e.done <= |e.batch|
    requires e.got == Got(Replay(m, log), e.batch[..e.done])
    requires e.ok <==> e.done == |e.batch|
    ensures WholeEntries(log + [e]) && Serial(m, log + [e])
    ensures Replay(m, log + [e]) == Effect(Replay(m, log), e)
  {
    var log' := log + [e];
    assert log'[..|log|] == log;
    forall i | 0 <= i < |log'|
      ensures log'[i].got == Got(Replay(m, log'[..i]), log'[i].batch[..log'[i].done])
      ensures log'[i].ok <==> log'[i].done == |log'[i].batch|
    {
      assert log'[..i] == log[..i];
    }
  }

  lemma PortKeepsLockInv(m: Memory, s: System, t: nat, fault: bool)
    requires LockInv(m, s) && Next(s, Port(t, fault)).Some?
    ensures LockInv(m, Next(s, Port(t, fault)).value)
  {
    if !fault {
      DriveKeepsProgress(Replay(m, s.log), s.hw, s.threads[t]);
    }
  }

  lemma ReleaseKeepsLockInv(m: Memory, s: System, t: nat)
    requires LockInv(m, s) && Next(s, Release(t)).Some?
    ensures LockInv(m, Next(s, Release(t)).value)
  {
    StoppedEntry(Replay(m, s.log), s.hw, s.threads[t], t);
    SerialExtend(m, s.log, EntryOf(t, s.threads[t]));
    assert Next(s, Release(t)).value.log == s.log + [EntryOf(t, s.threads[t])];
  }

  function EntryOf(t: nat, th: Thread): Entry
    requires th.Running?
  {
    Entry(t, th.batch, th.done, th.got, !th.failed)
  }

  /** What a stopped batch leaves is an entry of the serial log. */
  lemma StoppedEntry(m: Memory, hw: Hw, th: Thread, t: nat)
    requires th.Running? && InProgress(m, hw, th) && Finished(th)
    ensures var e := EntryOf(t, th);
            && e.done <= |e.batch| && hw.mem == Effect(m, e)
            && e.got == Got(m, e.batch[..e.done]) && (e.ok <==> e.done == |e.batch|)
  {
    StoppedMemory(m, hw, th);
  }

  lemma StampKeepsLockInv(m: Memory, s: System, t: nat, now: nat)
    requires LockInv(m, s) && Next(s, StampTime(t, now)).Some?
    ensures LockInv(m, Next(s, StampTime(t, now)).value)
  {
    var th := s.threads[t];
    assert th.batch[..0] == [];
    if |th.batch| > 0 {
      assert Transaction(s.hw.base, th.batch[0])[..0] == [];
    }
  }

  lemma StepKeepsLockInv(m: Memory, s: System, step: Step)
    requires LockInv(m, s) && Next(s, step).Some?
    ensures LockInv(m, Next(s, step).value)
  {
    match step {
      case Port(t, fault) => PortKeepsLockInv(m, s, t, fault);
      case Release(t) => ReleaseKeepsLockInv(m, s, t);
      case StampTime(t, now) => StampKeepsLockInv(m, s, t, now);
      case _ =>
    }
  }

  lemma {:induction false} RunKeepsLockInv(m: Memory, s: System, steps: seq<Step>)
    requires LockInv(m, s) && Run(s, steps).Some?
    ensures LockInv(m, Run(s, steps).value)
  {
    if steps != [] {
      RunKeepsLockInv(m, s, steps[..|steps| - 1]);
      StepKeepsLockInv(m, Run(s, steps[..|steps| - 1]).value, steps[|steps| - 1]);
    }
  }

  /**
   * Main result. Whatever the latches held at the start, however the port steps of the threads
   * interleave and wherever they fail, each finished batch read the values and left the memory of an
   * atomic register file that runs the batches one by one in lock order.
   */
  lemma {:induction false} EveryInterleavingIsSerial(hw: Hw, n: nat, steps: seq<Step>)
    requires Run(Boot(hw, n), steps).Some?
    ensures var s := Run(Boot(hw, n), steps).value;
            && WholeEntries(s.log) && Serial(hw.mem, s.log)
            && (s.holder.None? ==> s.hw.mem == Replay(hw.mem, s.log))
  {
    RunKeepsLockInv(hw.mem, Boot(hw, n), steps);
  }

  // ---- Nothing is lost, repeated or reordered within a thread ----

  function Mine(t: nat, log: seq<Entry>): seq<Batch> {
    if log == [] then []
    else Mine(t, log[..|log| - 1]) + if log[|log| - 1].tid == t then [log[|log| - 1].batch] else []
  }

  function AskedBy(t: nat, asked: seq<(nat, Batch)>): seq<Batch> {
    if asked == [] then []
    else AskedBy(t, asked[..|asked| - 1]) + if asked[|asked| - 1].0 == t then [asked[|asked| - 1].1] else []
  }

  function Pending(th: Thread): seq<Batch> {
    if th.Idle? || th.Releasing? then [] else [th.batch]
  }

  ghost predicate ThreadAccounted(s: System, t: nat)
    requires t < |s.threads|
  {
    AskedBy(t, s.asked) == Mine(t, s.log) + Pending(s.threads[t])
  }

  ghost predicate Accounted(s: System) {
    forall t :: 0 <= t < |s.threads| ==> ThreadAccounted(s, t)
  }

  lemma StepKeepsAccounts(s: System, step: Step)
    requires Accounted(s) && Next(s, step).Some?
    ensures Accounted(Next(s, step).value)
  {
    forall t | 0 <= t < |Next(s, step).value.threads|
      ensures ThreadAccounted(Next(s, step).value, t)
    {
      assert ThreadAccounted(s, t);
      StepAccounts(s, step, t);
    }
  }

  lemma StepAccounts(s: System, step: Step, t: nat)
    requires t < |s.threads| && ThreadAccounted(s, t) && Next(s, step).Some?
    ensures ThreadAccounted(Next(s, step).value, t)
  {
    match step {
      case Request(u, b) => RequestAccounts(s, u, b, t);
      case Release(u) => ReleaseAccounts(s, u, t);
      case _ =>
        assert Pending(Next(s, step).value.threads[t]) == Pending(s.threads[t]);
    }
  }

  lemma RequestAccounts(s: System, u: nat, b: Batch, t: nat)
    requires t < |s.threads| && ThreadAccounted(s, t) && Next(s, Request(u, b)).Some?
    ensures ThreadAccounted(Next(s, Request(u, b)).value, t)
  {
    AskedExtend(t, s.asked, (u, b));
  }

  lemma ReleaseAccounts(s: System, u: nat, t: nat)
    requires t < |s.threads| && ThreadAccounted(s, t) && Next(s, Release(u)).Some?
    ensures ThreadAccounted(Next(s, Release(u)).value, t)
  {
    MineExtend(t, s.log, EntryOf(u, s.threads[u]));
  }

  lemma AskedExtend(t: nat, asked: seq<(nat, Batch)>, a: (nat, Batch))
    ensures AskedBy(t, asked + [a]) == AskedBy(t, asked) + if a.0 == t then [a.1] else []
  {
    assert (asked + [a])[..|asked|] == asked;
  }

  lemma MineExtend(t: nat, log: seq<Entry>, e: Entry)
    ensures Mine(t, log + [e]) == Mine(t, log) + if e.tid == t then [e.batch] else []
  {
    assert (log + [e])[..|log|] == log;
  }

  /** Every thread's finished batches, followed by the one it is busy with, are the batches it asked for, in order. */
  lemma {:induction false} EveryRequestRunsOnce(hw: Hw, n: nat, steps: seq<Step>)
    requires Run(Boot(hw, n), steps).Some?
    ensures |Run(Boot(hw, n), steps).value.threads| == n
    ensures Accounted(Run(Boot(hw, n), steps).value)
  {
    if steps != [] {
      EveryRequestRunsOnce(hw, n, steps[..|steps| - 1]);
      StepKeepsAccounts(Run(Boot(hw, n), steps[..|steps| - 1]).value, steps[|steps| - 1]);
    }
  }

  // ---- The watchdog marker ----

  ghost predicate MarkerInv(s: System) {
    match s.stamp
    case Never => s.marker == 0
    case By(t, time) =>
      && t < |s.threads|
      && s.marker == (if s.clearedSince then 0 else time)
      && (!s.clearedSince ==> s.threads[t].Running? || s.threads[t].Releasing?)
  }

  lemma {:induction false} MarkerInvHolds(hw: Hw, n: nat, steps: seq<Step>)
    requires Run(Boot(hw, n), steps).Some?
    ensures MarkerInv(Run(Boot(hw, n), steps).value)
  {
    if steps != [] {
      MarkerInvHolds(hw, n, steps[..|steps| - 1]);
      StepKeepsMarker(Run(Boot(hw, n), steps[..|steps| - 1]).value, steps[|steps| - 1]);
    }
  }

  lemma StepKeepsMarker(s: System, step: Step)
    requires MarkerInv(s) && Next(s, step).Some?
    ensures MarkerInv(Next(s, step).value)
  {
  }

  /**
   * The marker tells when the latest stamped batch started, and nothing else: it is nonzero exactly
   * when no thread cleared it since (and the clock did not read 0), and then that batch's thread is
   * still inside `with_batch`.
   */
  lemma {:induction false} MarkerMeaning(hw: Hw, n: nat, steps: seq<Step>)
    requires Run(Boot(hw, n), steps).Some?
    ensures var s := Run(Boot(hw, n), steps).value;
            && (s.marker != 0 <==> s.stamp.By? && !s.clearedSince && s.stamp.time != 0)
            && (s.marker != 0 ==> s.marker == s.stamp.time && s.stamp.tid < |s.threads|
                                  && (s.threads[s.stamp.tid].Running? || s.threads[s.stamp.tid].Releasing?))
            && ((forall t :: 0 <= t < |s.threads| ==> !s.threads[t].Running? && !s.threads[t].Releasing?)
                ==> s.marker == 0)
  {
    MarkerInvHolds(hw, n, steps);
    EveryRequestRunsOnce(hw, n, steps);
  }

  ghost predicate HolderHidden(s: System) {
    match s.holder
    case Some(t) => t < |s.threads| && s.threads[t].Running? && s.stamp.By? && s.stamp.tid == t && s.stamp.time != 0
        && s.marker == 0
    case None => false
  }

  /** The lock can be free while the marker is not 0: such a run exists for every batch. */
  lemma FreeLockLooksHeld(hw: Hw, b: Batch)
    requires b != []
    ensures exists steps :: Run(Boot(hw, 2), steps).Some?
                            && Run(Boot(hw, 2), steps).value.holder.None? && Run(Boot(hw, 2), steps).value.marker != 0
  {
    var r := OneBatchFails(hw, b);
  }

  ghost predicate NobodyReleasing(s: System) { forall u :: 0 <= u < |s.threads| ==> !s.threads[u].Releasing? }

  /** The steps in which thread `t` keeps the lock. */
  ghost predicate Keeps(t: nat, steps: seq<Step>) { forall i :: 0 <= i < |steps| ==> steps[i] != Release(t) }

  ghost predicate MarkedBy(m: Memory, s: System, t: nat) {
    LockInv(m, s) && s.holder == Some(t) && s.threads[t].Running? && s.marker != 0
  }

  lemma StepKeepsMark(m: Memory, s: System, t: nat, step: Step)
    requires MarkedBy(m, s, t) && NobodyReleasing(s) && step != Release(t) && Next(s, step).Some?
    ensures var s' := Next(s, step).value; MarkedBy(m, s', t) && NobodyReleasing(s') && s'.marker == s.marker
  {
    StepKeepsLockInv(m, s, step);
    OthersAreIdle(s, t, step);
  }

  /** With the lock taken and no clear outstanding, the other threads can only ask. */
  lemma OthersAreIdle(s: System, t: nat, step: Step)
    requires t < |s.threads| && s.threads[t].Running? && NobodyReleasing(s) && step != Release(t) && Next(s, step).Some?
    requires s.holder == Some(t) && forall u :: 0 <= u < |s.threads| ==> (HasLock(s.threads[u]) <==> u == t)
    ensures var s' := Next(s, step).value;
            && t < |s'.threads| && s'.threads[t].Running? && NobodyReleasing(s') && s'.holder == Some(t)
            && s'.marker == s.marker
  {
    assert HasLock(s.threads[step.t]) <==> step.t == t;
    assert !s.threads[step.t].Releasing?;
  }

  lemma {:induction false} MarkStays(m: Memory, s: System, t: nat, steps: seq<Step>)
    requires MarkedBy(m, s, t) && NobodyReleasing(s) && Keeps(t, steps) && Run(s, steps).Some?
    ensures var s' := Run(s, steps).value; MarkedBy(m, s', t) && NobodyReleasing(s') && s'.marker == s.marker
  {
    if steps != [] {
      MarkStays(m, s, t, steps[..|steps| - 1]);
      StepKeepsMark(m, Run(s, steps[..|steps| - 1]).value, t, steps[|steps| - 1]);
    }
  }

  /**
   * When the marker can be relied on: a holder stays visible to the watchdog, whatever happens before
   * it releases the lock, exactly when no other thread still has to clear the marker.
   */
  lemma {:induction false} MarkIsStableIff(m: Memory, s: System, t: nat)
    requires MarkedBy(m, s, t)
    ensures (forall steps :: Keeps(t, steps) && Run(s, steps).Some? ==> Run(s, steps).value.marker == s.marker)
            <==> NobodyReleasing(s)
  {
    if NobodyReleasing(s) {
      forall steps | Keeps(t, steps) && Run(s, steps).Some?
        ensures Run(s, steps).value.marker == s.marker
      {
        MarkStays(m, s, t, steps);
      }
    } else {
      var u :| 0 <= u < |s.threads| && s.threads[u].Releasing?;
      var steps := Extend(s, [], Clear(u));
      assert Keeps(t, steps) && Run(s, steps).value.marker == 0;
    }
  }

  /**
   * The mutex is dropped before the marker is cleared, so a late clear by a thread that has already
   * unlocked hides the next holder from the watchdog. Such a run exists for every batch.
   */
  lemma LateClearHidesTheHolder(hw: Hw, b: Batch)
    requires b != []
    ensures exists steps :: Run(Boot(hw, 2), steps).Some? && HolderHidden(Run(Boot(hw, 2), steps).value)
  {
    var r := OneBatchFails(hw, b);
    r := Extend(Boot(hw, 2), r, Request(1, b));
    r := Extend(Boot(hw, 2), r, Acquire(1));
    r := Extend(Boot(hw, 2), r, StampTime(1, 7));
    r := Extend(Boot(hw, 2), r, Clear(0));
  }

  /** A batch whose first port step fails has given the lock back but not yet cleared the marker. */
  lemma OneBatchFails(hw: Hw, b: Batch) returns (r: seq<Step>)
    requires b != []
    ensures Run(Boot(hw, 2), r).Some?
    ensures var s := Run(Boot(hw, 2), r).value; s.threads == [Releasing, Idle] && s.holder.None? && s.marker == 5
  {
    r := Extend(Boot(hw, 2), [], Request(0, b));
    r := Extend(Boot(hw, 2), r, Acquire(0));
    r := Extend(Boot(hw, 2), r, StampTime(0, 5));
    r := Extend(Boot(hw, 2), r, Port(0, true));
    r := Extend(Boot(hw, 2), r, Release(0));
  }

  lemma Extend(s: System, steps: seq<Step>, step: Step) returns (longer: seq<Step>)
    requires Run(s, steps).Some? && Next(Run(s, steps).value, step).Some?
    ensures longer == steps + [step] && Run(s, longer) == Next(Run(s, steps).value, step)
  {
    longer := steps + [step];
    assert longer[..|steps|] == steps;
  }

  // ---- Progress ----

  /** How many steps the thread still needs before it is idle again, at most. */
  function Remaining(th: Thread): nat {
    match th
    case Idle => 0
    case Waiting(b) => 12 * |b| + 4
    case Locked(b) => 12 * |b| + 3
    case Running(b, done, pc, _, _, failed) => if failed || 12 * (|b| - done) <= pc then 2
        else 12 * (|b| - done) - pc + 2
    case Releasing => 1
  }

  function Total(ths: seq<Thread>): nat {
    if ths == [] then 0 else Remaining(ths[0]) + Total(ths[1..])
  }

  lemma {:induction false} TotalUpdate(ths: seq<Thread>, t: nat, th: Thread)
    requires t < |ths|
    ensures Total(ths[t := th]) == Total(ths) - Remaining(ths[t]) + Remaining(th)
  {
    if t == 0 {
      assert ths[0 := th][1..] == ths[1..];
    } else {
      TotalUpdate(ths[1..], t - 1, th);
      assert ths[t := th][1..] == ths[1..][t - 1 := th];
    }
  }

  lemma StepMakesProgress(m: Memory, s: System, step: Step)
    requires LockInv(m, s) && Next(s, step).Some? && !step.Request?
    ensures Total(Next(s, step).value.threads) < Total(s.threads)
  {
    StepShrinks(m, s, step);
    TotalUpdate(s.threads, step.t, Next(s, step).value.threads[step.t]);
  }

  lemma StepShrinks(m: Memory, s: System, step: Step)
    requires LockInv(m, s) && Next(s, step).Some? && !step.Request?
    ensures var s' := Next(s, step).value;
            && s'.threads == s.threads[step.t := s'.threads[step.t]]
            && Remaining(s'.threads[step.t]) < Remaining(s.threads[step.t])
  {
    if step == Port(step.t, false) {
      DriveShrinks(s.hw, s.threads[step.t]);
    }
  }

  lemma DriveShrinks(hw: Hw, th: Thread)
    requires th.Running? && !Finished(th) && th.pc < 12
    ensures Remaining(Drive(hw, th).1) < Remaining(th)
  {
  }

  /** From any reachable state, no schedule can go on for more than `Total` steps without a new request. */
  lemma {:induction false} EveryScheduleDrains(m: Memory, s: System, steps: seq<Step>)
    requires LockInv(m, s) && Run(s, steps).Some?
    requires forall i :: 0 <= i < |steps| ==> !steps[i].Request?
    ensures |steps| + Total(Run(s, steps).value.threads) <= Total(s.threads)
  {
    if steps != [] {
      EveryScheduleDrains(m, s, steps[..|steps| - 1]);
      RunKeepsLockInv(m, s, steps[..|steps| - 1]);
      StepMakesProgress(m, Run(s, steps[..|steps| - 1]).value, steps[|steps| - 1]);
    }
  }

  /** No deadlock: as long as some thread is not idle, some step other than a new request is possible. */
  lemma NoDeadlock(m: Memory, s: System, t: nat)
    requires LockInv(m, s) && t < |s.threads| && !s.threads[t].Idle?
    ensures exists step: Step :: !step.Request? && Next(s, step).Some?
  {
    var th := s.threads[t];
    if th.Releasing? {
      assert Next(s, Clear(t)).Some?;
    } else if s.holder.None? {
      assert Next(s, Acquire(t)).Some?;
    } else {
      var h := s.holder.value;
      if s.threads[h].Locked? {
        assert Next(s, StampTime(h, 0)).Some?;
      } else if Finished(s.threads[h]) {
        assert Next(s, Release(h)).Some?;
      } else {
        assert Next(s, Port(h, true)).Some?;
      }
    }
  }

  // ---- Every serial order happens ----

  lemma {:induction false} RunAppend(s: System, a: seq<Step>, b: seq<Step>)
    requires Run(s, a).Some?
    ensures Run(s, a + b) == Run(Run(s, a).value, b)
  {
    if b == [] {
      assert a + b == a;
    } else {
      RunAppend(s, a, b[..|b| - 1]);
      assert (a + b)[..|a + b| - 1] == a + b[..|b| - 1];
    }
  }

  /** Steps that run one batch of thread `t` without errors: they begin by asking for it. */
  ghost predicate Does(steps: seq<Step>, t: nat, b: Batch) {
    steps != [] && steps[0] == Request(t, b) && Quiet(steps[1..])
  }

  /** Steps that ask for nothing and do not fail. */
  ghost predicate Quiet(steps: seq<Step>) {
    forall i :: 0 <= i < |steps| ==> !steps[i].Request? && (steps[i].Port? ==> !steps[i].fault)
  }

  lemma QuietAppend(a: seq<Step>, b: seq<Step>)
    requires Quiet(a) && Quiet(b)
    ensures Quiet(a + b)
  {
  }

  lemma DoesAppend(a: seq<Step>, b: seq<Step>, t: nat, batch: Batch)
    requires Does(a, t, batch) && Quiet(b)
    ensures Does(a + b, t, batch)
  {
    QuietAppend(a[1..], b);
    assert (a + b)[1..] == a[1..] + b;
  }

  /** Thread `t` has run its batch to the end; nothing else changed but the hardware. */
  ghost predicate Driven(m: Memory, s: System, s': System, t: nat)
    requires t < |s.threads| && s.threads[t].Running?
  {
    && LockInv(m, s') && s'.holder == s.holder && s'.log == s.log && |s'.threads| == |s.threads|
    && s'.threads[t].Running? && s'.threads[t].batch == s.threads[t].batch && !s'.threads[t].failed
    && Finished(s'.threads[t])
    && s'.threads == s.threads[t := s'.threads[t]]
  }

  /** One port step of the thread that holds the lock. */
  lemma PortAlone(m: Memory, s: System, t: nat)
    requires LockInv(m, s) && s.holder == Some(t) && s.threads[t].Running? && !s.threads[t].failed
        && !Finished(s.threads[t])
    ensures Next(s, Port(t, false)).Some?
    ensures var s' := Next(s, Port(t, false)).value;
            && LockInv(m, s') && s'.holder == s.holder && s'.log == s.log && s'.threads == s.threads[t := s'.threads[t]]
            && s'.threads[t].Running? && s'.threads[t].batch == s.threads[t].batch && !s'.threads[t].failed
            && Remaining(s'.threads[t]) < Remaining(s.threads[t])
  {
    PortKeepsLockInv(m, s, t, false);
    DriveShrinks(s.hw, s.threads[t]);
  }

  /** A batch that holds the lock can always be driven to its end. */
  lemma {:induction false} DriveAlone(m: Memory, s: System, t: nat) returns (steps: seq<Step>)
    requires LockInv(m, s) && s.holder == Some(t) && s.threads[t].Running? && !s.threads[t].failed
    ensures Run(s, steps).Some? && Quiet(steps) && Driven(m, s, Run(s, steps).value, t)
    decreases Remaining(s.threads[t])
  {
    if Finished(s.threads[t]) {
      steps := [];
    } else {
      PortAlone(m, s, t);
      var rest := DriveAlone(m, Next(s, Port(t, false)).value, t);
      var first := Extend(s, [], Port(t, false));
      RunAppend(s, first, rest);
      QuietAppend(first, rest);
      steps := first + rest;
    }
  }

  /** What a batch that runs whole leaves in the log. */
  function WholeEntry(m: Memory, t: nat, b: Batch): Entry { Entry(t, b, |b|, Got(m, b), true) }

  /** Asking and taking the lock. */
  lemma AskAlone(m: Memory, s: System, t: nat, b: Batch)
    requires LockInv(m, s) && t < |s.threads| && s.threads[t].Idle? && s.holder.None?
    ensures Next(s, Request(t, b)).Some? && Next(Next(s, Request(t, b)).value, Acquire(t)).Some?
    ensures var s' := Next(Next(s, Request(t, b)).value, Acquire(t)).value;
            && LockInv(m, s') && s'.threads == s.threads[t := Locked(b)] && s'.holder == Some(t) && s'.hw == s.hw
            && s'.log == s.log
  {
    StepKeepsLockInv(m, s, Request(t, b));
    StepKeepsLockInv(m, Next(s, Request(t, b)).value, Acquire(t));
  }

  /** Asking, taking the lock and stamping. */
  lemma StartAlone(m: Memory, s: System, t: nat, b: Batch) returns (steps: seq<Step>)
    requires LockInv(m, s) && t < |s.threads| && s.threads[t].Idle? && s.holder.None?
    ensures Run(s, steps).Some? && Does(steps, t, b)
    ensures var s' := Run(s, steps).value;
            && LockInv(m, s') && s'.holder == Some(t) && s'.log == s.log
            && s'.threads == s.threads[t := Running(b, 0, 0, s.hw, [], false)]
  {
    AskAlone(m, s, t, b);
    var one := Extend(s, [], Request(t, b));
    var two := Extend(s, one, Acquire(t));
    StampAlone(m, Run(s, two).value, t);
    steps := Extend(s, two, StampTime(t, 1));
    assert steps == [Request(t, b), Acquire(t), StampTime(t, 1)];
  }

  lemma StampAlone(m: Memory, s: System, t: nat)
    requires LockInv(m, s) && t < |s.threads| && s.threads[t].Locked?
    ensures Next(s, StampTime(t, 1)).Some?
    ensures var s' := Next(s, StampTime(t, 1)).value;
            && LockInv(m, s') && s'.holder == s.holder && s'.log == s.log
            && s'.threads == s.threads[t := Running(s.threads[t].batch, 0, 0, s.hw, [], false)]
  {
    StampKeepsLockInv(m, s, t, 1);
  }

  /** Giving the lock back and clearing the marker. */
  lemma FinishAlone(m: Memory, s: System, t: nat) returns (steps: seq<Step>)
    requires LockInv(m, s) && s.holder == Some(t) && s.threads[t].Running? && !s.threads[t].failed
        && Finished(s.threads[t])
    ensures Run(s, steps).Some? && Quiet(steps)
    ensures var s', b := Run(s, steps).value, s.threads[t].batch;
            && LockInv(m, s') && s'.holder.None? && s'.log == s.log + [WholeEntry(Replay(m, s.log), t, b)]
            && s'.threads == s.threads[t := Idle]
  {
    ReleaseWhole(m, s, t);
    steps := Extend(s, [], Release(t));
    ReleaseKeepsLockInv(m, s, t);
    var s1 := Run(s, steps).value;
    steps := Extend(s, steps, Clear(t));
    StepKeepsLockInv(m, s1, Clear(t));
  }

  lemma ReleaseWhole(m: Memory, s: System, t: nat)
    requires LockInv(m, s) && s.holder == Some(t) && s.threads[t].Running? && !s.threads[t].failed
        && Finished(s.threads[t])
    ensures Next(s, Release(t)).Some?
    ensures var s' := Next(s, Release(t)).value;
            && s'.holder.None? && s'.threads == s.threads[t := Releasing]
            && s'.log == s.log + [WholeEntry(Replay(m, s.log), t, s.threads[t].batch)]
  {
    var th := s.threads[t];
    assert th.batch[..th.done] == th.batch;
  }

  /** While the lock is free, any idle thread can run any batch from beginning to end. */
  lemma RunAlone(m: Memory, s: System, t: nat, b: Batch) returns (steps: seq<Step>)
    requires LockInv(m, s) && t < |s.threads| && s.threads[t].Idle? && s.holder.None?
    ensures Run(s, steps).Some? && Does(steps, t, b)
    ensures var s' := Run(s, steps).value;
            && LockInv(m, s') && s'.holder.None? && s'.log == s.log + [WholeEntry(Replay(m, s.log), t, b)]
            && s'.threads == s.threads
  {
    var first := StartAlone(m, s, t, b);
    var s1 := Run(s, first).value;
    var second := DriveAlone(m, s1, t);
    var s2 := Run(s1, second).value;
    var third := FinishAlone(m, s2, t);
    RunAppend(s, first, second);
    RunAppend(s, first + second, third);
    DoesAppend(first, second, t, b);
    DoesAppend(first + second, third, t, b);
    steps := first + second + third;
    assert s2.threads[t := Idle] == s.threads;
  }

  /** The log of `orders`, run one after another by the named threads. */
  function SerialLog(m: Memory, orders: seq<(nat, Batch)>): (log: seq<Entry>)
    ensures WholeEntries(log) && |log| == |orders|
  {
    if orders == [] then []
    else
      var log := SerialLog(m, orders[..|orders| - 1]);
      var (t, b) := orders[|orders| - 1];
      log + [WholeEntry(Replay(m, log), t, b)]
  }

  /** Steps that ask only for what `orders` names, and do not fail. */
  ghost predicate AsksFor(steps: seq<Step>, orders: seq<(nat, Batch)>) {
    forall i :: 0 <= i < |steps| ==>
      && (steps[i].Request? ==> (steps[i].t, steps[i].batch) in orders)
      && (steps[i].Port? ==> !steps[i].fault)
  }

  lemma AsksForMore(before: seq<Step>, last: seq<Step>, orders: seq<(nat, Batch)>)
    requires orders != [] && AsksFor(before, orders[..|orders| - 1])
    requires Does(last, orders[|orders| - 1].0, orders[|orders| - 1].1)
    ensures AsksFor(before + last, orders)
  {
    forall i | 0 <= i < |last|
      ensures last[i].Request? ==> (last[i].t, last[i].batch) == orders[|orders| - 1]
      ensures last[i].Port? ==> !last[i].fault
    {
      if i > 0 {
        assert last[i] == last[1..][i - 1];
      }
    }
  }

  /**
   * The converse of `EveryInterleavingIsSerial`: every serial order of batches, over any threads, is
   * the log of some run that ends with all threads idle.
   */
  lemma {:induction false} EverySerialOrderHappens(hw: Hw, n: nat, orders: seq<(nat, Batch)>) returns (steps: seq<Step>)
    requires forall i :: 0 <= i < |orders| ==> orders[i].0 < n
    ensures Run(Boot(hw, n), steps).Some? && AsksFor(steps, orders)
    ensures var s := Run(Boot(hw, n), steps).value;
            && LockInv(hw.mem, s) && s.holder.None? && s.threads == Boot(hw, n).threads
            && s.log == SerialLog(hw.mem, orders)
  {
    if orders == [] {
      steps := [];
    } else {
      var k := |orders| - 1;
      var before := EverySerialOrderHappens(hw, n, orders[..k]);
      var s := Run(Boot(hw, n), before).value;
      var last := RunAlone(hw.mem, s, orders[k].0, orders[k].1);
      RunAppend(Boot(hw, n), before, last);
      steps := before + last;
      assert s.log == SerialLog(hw.mem, orders[..k]);
      SerialLogStep(hw.mem, orders);
      AsksForMore(before, last, orders);
    }
  }

  lemma SerialLogStep(m: Memory, orders: seq<(nat, Batch)>)
    requires orders != []
    ensures var log, last := SerialLog(m, orders[..|orders| - 1]), orders[|orders| - 1];
            SerialLog(m, orders) == log + [WholeEntry(Replay(m, log), last.0, last.1)]
  {
  }
}
