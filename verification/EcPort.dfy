/**
 * The Super I/O port protocol of daemon/src/ec/mod.rs.
 *
 * Hardware assumption, read off the order of port writes in the daemon: the chip answers at an
 * index port `base` and a data port `base + 1`. A byte written to the index port is latched. With
 * 0x2E latched, a data write selects one of the second-level registers; with 0x2F latched, a data
 * access reaches the selected one: 0x10 is the low address byte, 0x11 the high address byte and
 * 0x12 the addressed memory cell. Every other access changes nothing and reads 0xFF.
 */
module EcPort {
  import opened Bytes

  type Memory = m: seq<byte> | |m| == 0x1_0000 witness seq(0x1_0000, _ => 0)

  datatype Hw = Hw(base: u16, index: byte, select: byte, high: byte, low: byte, mem: Memory) {
    function Address(): u16 { high * 256 + low }
  }

  datatype PortOp = Out(port: int, val: byte) | In(port: int)

  function OutStep(h: Hw, port: int, val: byte): Hw {
    if port == h.base then h.(index := val)
    else if port != h.base + 1 then h
    else if h.index == 0x2E then h.(select := val)
    else if h.index != 0x2F then h
    else if h.select == 0x10 then h.(low := val)
    else if h.select == 0x11 then h.(high := val)
    else if h.select == 0x12 then h.(mem := h.mem[h.Address() := val])
    else h
  }

  function InValue(h: Hw, port: int): byte {
    if port != h.base + 1 || h.index != 0x2F then 0xFF
    else if h.select == 0x10 then h.low
    else if h.select == 0x11 then h.high
    else if h.select == 0x12 then h.mem[h.Address()]
    else 0xFF
  }

  function PortStep(h: Hw, op: PortOp): Hw {
    match op
    case Out(port, val) => OutStep(h, port, val)
    case In(_) => h
  }

  function RunPorts(h: Hw, ops: seq<PortOp>): Hw {
    if ops == [] then h
    else PortStep(RunPorts(h, ops[..|ops| - 1]), ops[|ops| - 1])
  }

  /** Register-level accesses. */
  datatype RegOp = Peek(addr: u16) | Poke(addr: u16, val: byte)

  /** The eleven port writes that address a register. */
  function AddressOps(port: int, addr: u16): seq<PortOp> {
    [ Out(port, 0x2E), Out(port + 1, 0x11),
      Out(port, 0x2F), Out(port + 1, addr / 256),
      Out(port, 0x2E), Out(port + 1, 0x10),
      Out(port, 0x2F), Out(port + 1, addr % 256),
      Out(port, 0x2E), Out(port + 1, 0x12),
      Out(port, 0x2F) ]
  }

  /** A whole transaction: `read_reg` or `write_reg` of a batch. */
  function Transaction(port: int, op: RegOp): (ops: seq<PortOp>)
    ensures |ops| == 12
  {
    AddressOps(port, op.addr) + [if op.Peek? then In(port + 1) else Out(port + 1, op.val)]
  }

  /** What the same access does to a plain register file. */
  function MemStep(m: Memory, op: RegOp): Memory {
    if op.Poke? then m[op.addr := op.val] else m
  }

  lemma RunPortsExtend(h: Hw, ops: seq<PortOp>, k: nat)
    requires k < |ops|
    ensures RunPorts(h, ops[..k + 1]) == PortStep(RunPorts(h, ops[..k]), ops[k])
  {
    assert ops[..k + 1][..k] == ops[..k];
  }

  /** The latches after `k` steps of a transaction that started from `h`. */
  ghost predicate Latched(h: Hw, op: RegOp, k: nat, l: Hw) {
    && l.mem == h.mem && l.base == h.base
    && (k % 4 == 1 || k % 4 == 2 ==> l.index == 0x2E)
    && (k > 0 && (k % 4 == 3 || k % 4 == 0) ==> l.index == 0x2F)
    && (2 <= k <= 5 ==> l.select == 0x11)
    && (6 <= k <= 9 ==> l.select == 0x10)
    && (10 <= k ==> l.select == 0x12)
    && (4 <= k ==> l.high == op.addr / 256)
    && (8 <= k ==> l.low == op.addr % 256)
  }

  lemma {:induction false} LatchesAfter(h: Hw, op: RegOp, k: nat)
    requires k < 12
    ensures Latched(h, op, k, RunPorts(h, Transaction(h.base, op)[..k]))
  {
    var ops := Transaction(h.base, op);
    if k == 0 {
      assert ops[..0] == [];
    } else {
      LatchesAfter(h, op, k - 1);
      RunPortsExtend(h, ops, k - 1);
      LatchStep(h, op, k, RunPorts(h, ops[..k - 1]));
    }
  }

  /** One more step of the address phase. */
  lemma LatchStep(h: Hw, op: RegOp, k: nat, l: Hw)
    requires 0 < k < 12 && Latched(h, op, k - 1, l)
    ensures Latched(h, op, k, PortStep(l, Transaction(h.base, op)[k - 1]))
  {
    var ops := Transaction(h.base, op);
    assert ops[k - 1] == AddressOps(h.base, op.addr)[k - 1];
    if
    case k % 4 == 1 => assert ops[k - 1] == Out(h.base, 0x2E);
    case k % 4 == 3 => assert ops[k - 1] == Out(h.base, 0x2F);
    case k == 2 => assert ops[k - 1] == Out(h.base + 1, 0x11);
    case k == 4 => assert ops[k - 1] == Out(h.base + 1, op.addr / 256);
    case k == 6 => assert ops[k - 1] == Out(h.base + 1, 0x10);
    case k == 8 => assert ops[k - 1] == Out(h.base + 1, op.addr % 256);
    case k == 10 => assert ops[k - 1] == Out(h.base + 1, 0x12);
  }

  /** Whatever the latches held before, a transaction cut short after `k` steps has not touched memory. */
  lemma PartialTransactionLeavesMemory(h: Hw, op: RegOp, k: nat)
    requires k < 12
    ensures RunPorts(h, Transaction(h.base, op)[..k]).mem == h.mem
    ensures RunPorts(h, Transaction(h.base, op)[..k]).base == h.base
    ensures k == 11 ==> var l := RunPorts(h, Transaction(h.base, op)[..k]);
                        l.index == 0x2F && l.select == 0x12 && l.Address() == op.addr
  {
    LatchesAfter(h, op, k);
  }

  /** A finished transaction is exactly the register access, for every initial latch contents. */
  lemma TransactionEffect(h: Hw, op: RegOp)
    ensures RunPorts(h, Transaction(h.base, op)).mem == MemStep(h.mem, op)
    ensures RunPorts(h, Transaction(h.base, op)).base == h.base
    ensures op.Peek? ==> InValue(RunPorts(h, Transaction(h.base, op)[..11]), h.base + 1) == h.mem[op.addr]
  {
    var ops := Transaction(h.base, op);
    PartialTransactionLeavesMemory(h, op, 11);
    RunPortsExtend(h, ops, 11);
    assert ops[..12] == ops;
  }

  /** Probing a port pair where the chip does not answer leaves the chip untouched. */
  lemma {:induction false} ForeignPortIsInert(h: Hw, port: int, op: RegOp, k: nat)
    requires k <= 12
    requires port != h.base && port != h.base + 1 && port + 1 != h.base
    ensures RunPorts(h, Transaction(port, op)[..k]) == h
    ensures InValue(h, port + 1) == 0xFF
  {
    var ops := Transaction(port, op);
    if k == 0 {
      assert ops[..0] == [];
    } else {
      ForeignPortIsInert(h, port, op, k - 1);
      RunPortsExtend(h, ops, k - 1);
      assert ops[k - 1].port == port || ops[k - 1].port == port + 1;
    }
  }

  /**
   * The raw port backend together with the chip behind it. `outcomes` says which of the coming
   * port calls succeed; once it is used up every call does. A failing call has no effect.
   */
  class PortIo {
    const base: u16
    var index: byte
    var select: byte
    var high: byte
    var low: byte
    var mem: Memory
    var outcomes: seq<bool>

    constructor (h: Hw, outcomes: seq<bool>)
      ensures State() == h && this.outcomes == outcomes
    {
      base, index, select, high, low, mem := h.base, h.index, h.select, h.high, h.low, h.mem;
      this.outcomes := outcomes;
    }

    ghost function State(): Hw
      reads this
    {
      Hw(base, index, select, high, low, mem)
    }

    /** No coming port call fails. */
    ghost predicate Clean()
      reads this
    {
      forall i :: 0 <= i < |outcomes| ==> outcomes[i]
    }

    /** Does a transaction through `port` reach the chip? */
    predicate Answers(port: int) {
      port == base || port == base + 1 || port + 1 == base
    }

    method Succeeds() returns (ok: bool)
      modifies this`outcomes
      ensures ok == (old(outcomes) == [] || old(outcomes)[0])
      ensures old(Clean()) ==> ok && Clean()
    {
      ok := outcomes == [] || outcomes[0];
      outcomes := if outcomes == [] then [] else outcomes[1..];
    }

    method Outb(port: int, val: byte) returns (r: Io<()>)
      modifies this
      ensures State() == if r.Done? then OutStep(old(State()), port, val) else old(State())
      ensures old(Clean()) ==> r.Done? && Clean()
    {
      var ok := Succeeds();
      if !ok {
        return Failed;
      }
      if port == base {
        index := val;
      } else if port == base + 1 {
        if index == 0x2E {
          select := val;
        } else if index == 0x2F {
          if select == 0x10 {
            low := val;
          } else if select == 0x11 {
            high := val;
          } else if select == 0x12 {
            mem := mem[high * 256 + low := val];
          }
        }
      }
      return Done(());
    }

    method Inb(port: int) returns (r: Io<byte>)
      modifies this
      ensures State() == old(State())
      ensures r.Done? ==> r.value == InValue(State(), port)
      ensures old(Clean()) ==> r.Done? && Clean()
    {
      var ok := Succeeds();
      if !ok {
        return Failed;
      }
      if port == base + 1 && index == 0x2F {
        if select == 0x10 {
          return Done(low);
        } else if select == 0x11 {
          return Done(high);
        } else if select == 0x12 {
          return Done(mem[high * 256 + low]);
        }
      }
      return Done(0xFF);
    }

    /** The two writes that make `which` the selected second-level register. */
    method Select(port: int, which: byte) returns (r: Io<()>)
      requires port == base || !Answers(port)
      modifies this
      ensures mem == old(mem)
      ensures port == base && r.Done? ==> State() == old(State()).(index := 0x2E, select := which)
      ensures !Answers(port) ==> State() == old(State())
      ensures old(Clean()) ==> r.Done? && Clean()
    {
      var _ :- Outb(port, 0x2E);
      r := Outb(port + 1, which);
    }

    /** The two writes that store `val` in the selected address register. */
    method Fill(port: int, val: byte) returns (r: Io<()>)
      requires port == base || !Answers(port)
      requires port == base ==> select == 0x10 || select == 0x11
      modifies this
      ensures mem == old(mem) && select == old(select)
      ensures port == base && r.Done? && select == 0x10 ==> State() == old(State()).(index := 0x2F, low := val)
      ensures port == base && r.Done? && select == 0x11 ==> State() == old(State()).(index := 0x2F, high := val)
      ensures !Answers(port) ==> State() == old(State())
      ensures old(Clean()) ==> r.Done? && Clean()
    {
      var _ :- Outb(port, 0x2F);
      r := Outb(port + 1, val);
    }

    /** The eleven writes shared by reads and writes, in the order of `AddressOps`. */
    method Address(port: int, addr: u16) returns (r: Io<()>)
      requires port == base || !Answers(port)
      modifies this
      ensures mem == old(mem)
      ensures port == base && r.Done? ==>
                index == 0x2F && select == 0x12 && high == addr / 256 && low == addr % 256
      ensures !Answers(port) ==> State() == old(State())
      ensures old(Clean()) ==> r.Done? && Clean()
    {
      var _ :- Select(port, 0x11);
      var _ :- Fill(port, addr / 256);
      var _ :- Select(port, 0x10);
      var _ :- Fill(port, addr % 256);
      var _ :- Select(port, 0x12);
      r := Outb(port, 0x2F);
    }

    /** `EcBatch::read_reg` through a given index port. */
    method ReadReg(port: int, addr: u16) returns (r: Io<byte>)
      requires port == base || !Answers(port)
      modifies this
      ensures mem == old(mem)
      ensures r.Done? ==> r.value == if port == base then mem[addr] else 0xFF
      ensures !Answers(port) ==> State() == old(State())
      ensures old(Clean()) ==> r.Done? && Clean()
    {
      var _ :- Address(port, addr);
      r := Inb(port + 1);
    }

    /** `EcBatch::write_reg`: all or nothing, whichever port call fails. */
    method WriteReg(port: int, addr: u16, val: byte) returns (r: Io<()>)
      requires port == base || !Answers(port)
      modifies this
      ensures mem == if r.Done? && port == base then old(mem)[addr := val] else old(mem)
      ensures !Answers(port) ==> State() == old(State())
      ensures old(Clean()) ==> r.Done? && Clean()
    {
      var _ :- Address(port, addr);
      r := Outb(port + 1, val);
    }
  }
}
