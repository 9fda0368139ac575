/** Register addresses: daemon/src/ec/offsets.rs, resolved against the detected HRAM window. */
module EcRegs {
  import opened Bytes
  import opened Settings

  datatype Reg =
    | Kbd | KbdVal | KbdTimeout | A4Mux
    | Power
    | LimitMin | LimitMax | Rsoc
    | Policy(fan: FanIndex) | Duty(fan: FanIndex)
    | Bypass | A0Mux | Prescaler | Cycle | LedDuty | BreathEn | BreathStepReg | BreathDelayReg
    | PortA
    | TempCpu | TempSys
    | ChipId1 | ChipId2 | ChipVer | PwmClock
    | FanMsb(fan: FanIndex) | FanLsb(fan: FanIndex)

  datatype Board = N155A | N155D

  /** The bases tried for the HRAM window; `base + offset` never leaves 16 bits. */
  const HRAM_BASES: seq<u16> := [0xC400, 0xC000, 0x0400, 0x0000, 0xE000]

  type Window = x: u16 | x <= 0xFF00

  datatype Layout = Layout(board: Board, hram: Window)

  /** Offset of a register inside the HRAM window. */
  function RamOffset(board: Board, reg: Reg): Option<byte> {
    match reg
    case KbdTimeout => Some(0xA6)
    case Power => Some(0xB1)
    case LimitMin => Some(0xBC)
    case LimitMax => Some(0xBB)
    case Rsoc => Some(0x93)
    case Policy(fan) => Some(if fan.Cpu? then 0x4F else 0x4E)
    case Duty(fan) => Some(fan.Offset())
    case Bypass => Some(if board.N155D? then 0x4F else 0x55)
    case TempCpu => Some(0x70)
    case TempSys => Some(0x62)
    case FanMsb(fan) => Some(if fan.Cpu? then 0x76 else 0x79)
    case FanLsb(fan) => Some(if fan.Cpu? then 0x77 else 0x7A)
    case _ => None
  }

  /** Address of a register outside the window; the keyboard register moves with window 0xC400. */
  function Absolute(hram: Window, reg: Reg): u16 {
    match reg
    case Kbd => if hram == 0xC400 then 0x0F05 + 0xC000 else 0x0F05
    case KbdVal => 0x1806
    case A4Mux => 0x1614
    case PortA => 0x1601
    case A0Mux => 0x1610
    case Prescaler => 0x1800
    case Cycle => 0x1801
    case LedDuty => 0x1802
    case BreathEn => 0x1850
    case BreathStepReg => 0x1851
    case BreathDelayReg => 0x1852
    case ChipId1 => 0x2000
    case ChipId2 => 0x2001
    case ChipVer => 0x2002
    case PwmClock => 0x1823
    case _ => 0
  }

  function Addr(l: Layout, reg: Reg): u16 {
    match RamOffset(l.board, reg)
    case Some(offset) => l.hram + offset
    case None => Absolute(l.hram, reg)
  }

  /** Where each register lives; most of the model works for any such table. */
  type Table = Reg -> u16

  function TableOf(l: Layout): Table { (reg: Reg) => Addr(l, reg) }

  /** No two registers share an address. */
  ghost predicate Distinct(t: Table) {
    forall a, b :: a != b ==> t(a) != t(b)
  }

  lemma OffsetsApart(a: Reg, b: Reg)
    requires a != b && RamOffset(N155A, a).Some?
    ensures RamOffset(N155A, a) != RamOffset(N155A, b)
  {
  }

  lemma AbsolutesApart(hram: Window, a: Reg, b: Reg)
    requires a != b && RamOffset(N155A, a).None? && RamOffset(N155A, b).None?
    ensures Absolute(hram, a) != Absolute(hram, b)
  {
  }

  lemma OutsideTheWindow(l: Layout, reg: Reg)
    requires l.hram in HRAM_BASES && RamOffset(N155A, reg).None?
    ensures !(l.hram <= Absolute(l.hram, reg) < l.hram + 0x100)
  {
  }

  /** In every window the daemon looks for, exactly the N155A table keeps all registers apart. */
  lemma DistinctIffN155A(l: Layout)
    requires l.hram in HRAM_BASES
    ensures Distinct(TableOf(l)) <==> l.board.N155A?
  {
    if l.board.N155D? {
      assert TableOf(l)(Bypass) == TableOf(l)(Policy(Cpu));
    } else {
      forall a, b | a != b
        ensures Addr(l, a) != Addr(l, b)
      {
        match (RamOffset(N155A, a), RamOffset(N155A, b)) {
          case (Some(_), Some(_)) => OffsetsApart(a, b);
          case (None, None) => AbsolutesApart(l.hram, a, b);
          case (Some(_), None) => OutsideTheWindow(l, b);
          case (None, Some(_)) => OutsideTheWindow(l, a);
        }
      }
    }
  }

  /** The window of a table, recovered from the address of a register inside it. */
  function WindowOf(t: Table): u16 { (t(KbdTimeout) - 0xA6 + 0x1_0000) % 0x1_0000 }

  lemma WindowOfTable(l: Layout)
    ensures WindowOf(TableOf(l)) == l.hram
  {
  }

  /** The setting a register belongs to. */
  datatype Feature = Keyboard | Led | Profile | Charge | Fan(fan: FanIndex) | Other

  function Owner(reg: Reg): Feature {
    match reg
    case Kbd | KbdVal | KbdTimeout | A4Mux => Keyboard
    case Power => Profile
    case LimitMin | LimitMax => Charge
    case Policy(f) => Fan(f)
    case Duty(f) => Fan(f)
    case Bypass | A0Mux | Prescaler | Cycle | LedDuty | BreathEn | BreathStepReg | BreathDelayReg => Led
    case _ => Other
  }
}
