/** The reference interpreter: one instruction as an effect on the machine. */
module Interpreter {
  import opened Machine
  import opened Isa
  import opened Alu

  // ------------------------------------------------------------- operands

  /** instruction_data_address. */
  function DataAddress(c: Cpu, i: Insn): word
    requires HasAddress(i.def.mode)
  {
    var abs := i.op1 + 256 * i.op2;
    match i.def.mode
    case Zp | ZpRel => i.op1
    case ZpX => (i.op1 + c.regs.x) % 256
    case ZpY => (i.op1 + c.regs.y) % 256
    case IndZp => LoadWord(c.mem, i.op1, (i.op1 + 1) % 256)
    case IndZpX => LoadWord(c.mem, (i.op1 + c.regs.x) % 256, (i.op1 + c.regs.x + 1) % 256)
    case IndZpY => (LoadWord(c.mem, i.op1, (i.op1 + 1) % 256) + c.regs.y) % 0x1_0000
    case Absolute => abs
    case AbsoluteX => (abs + c.regs.x) % 0x1_0000
    case AbsoluteY => (abs + c.regs.y) % 0x1_0000
  }

  /** instruction_data_read_1. */
  function DataRead(c: Cpu, i: Insn): byte
    requires i.def.mode == Accumulator || i.def.mode == Immediate || HasAddress(i.def.mode)
  {
    if i.def.mode == Accumulator then c.regs.a
    else if i.def.mode == Immediate then i.op1
    else Load(c.mem, DataAddress(c, i))
  }

  /** An effect on the registers only. */
  function Keep(c: Cpu, r: Regs): Effect {
    Effect(r, [], c.irq, c.run)
  }

  /** Registers `r` and stores `ws`. */
  function Wrote(c: Cpu, r: Regs, ws: seq<Write>): Effect {
    Effect(r, ws, c.irq, c.run)
  }

  /** instruction_data_write_1 after the other registers became `r`. */
  function DataWrite(c: Cpu, i: Insn, r: Regs, val: byte): Effect
    requires i.def.mode == Accumulator || HasAddress(i.def.mode)
  {
    if i.def.mode == Accumulator then Keep(c, r.(a := val)) else Wrote(c, r, [Write(DataAddress(c, i), val)])
  }

  // ---------------------------------------------------- routines on values

  function SetZN(r: Regs, x: byte): Regs {
    r.(p := AdjustZN(r.p, x))
  }

  function CompareWith(r: Regs, x: byte, v: byte): Regs {
    r.(p := AdjustZN(r.p, (x - v) % 256).(c := x >= v))
  }

  /** The routines that read an operand `v`. */
  function EmulRead(op: ReadOp, r: Regs, v: byte, immediate: bool): Regs {
    match op
    case LDA => SetZN(r.(a := v), v)
    case LDX => SetZN(r.(x := v), v)
    case LDY => SetZN(r.(y := v), v)
    case AND => var t := And(r.a, v); SetZN(r.(a := t), t)
    case ORA => var t := Or(r.a, v); SetZN(r.(a := t), t)
    case EOR => var t := Xor(r.a, v); SetZN(r.(a := t), t)
    case ADC => var s := Adc(r.a, v, r.p); r.(a := s.a, p := s.p)
    case SBC => var s := Sbc(r.a, v, r.p); r.(a := s.a, p := s.p)
    case CMP => CompareWith(r, r.a, v)
    case CPX => CompareWith(r, r.x, v)
    case CPY => CompareWith(r, r.y, v)
    case BIT =>
      var p := r.p.(z := And(r.a, v) == 0);
      if immediate then r.(p := p) else r.(p := p.(v := And(v, 0x40) != 0, n := And(v, 0x80) != 0))
  }

  /** The read-modify-write routines: the registers and the value written back. */
  function EmulModify(op: ModifyOp, r: Regs, v: byte): (Regs, byte) {
    match op
    case ASL => var t := 2 * v % 256; (SetZN(r.(p := r.p.(c := v >= 128)), t), t)
    case LSR => var t := v / 2; (SetZN(r.(p := r.p.(c := v % 2 == 1)), t), t)
    case ROL => var t := 2 * v % 256 + Carry(r.p.c); (SetZN(r.(p := r.p.(c := v >= 128)), t), t)
    case ROR => var t := v / 2 + 128 * Carry(r.p.c); (SetZN(r.(p := r.p.(c := v % 2 == 1)), t), t)
    case INC => var t := (v + 1) % 256; (SetZN(r, t), t)
    case DEC => var t := (v - 1) % 256; (SetZN(r, t), t)
    case TRB => (r.(p := r.p.(z := And(r.a, v) == 0)), And(v, Xor(r.a, 0xFF)))
    case TSB => (r.(p := r.p.(z := And(r.a, v) == 0)), Or(v, r.a))
    case RMB(k) => (r, And(v, 255 - BitMask(k)))
    case SMB(k) => (r, Or(v, BitMask(k)))
  }

  function EmulPut(op: PutOp, r: Regs): byte {
    match op
    case STA => r.a
    case STX => r.x
    case STY => r.y
    case STZ => 0
  }

  function EmulFlag(op: FlagOp, p: Flags): Flags {
    match op
    case CLC => p.(c := false)
    case CLD => p.(d := false)
    case CLI => p.(i := false)
    case CLV => p.(v := false)
    case SEC => p.(c := true)
    case SED => p.(d := true)
    case SEI => p.(i := true)
  }

  function EmulMove(op: MoveOp, r: Regs): Regs {
    match op
    case TAX => SetZN(r.(x := r.a), r.a)
    case TAY => SetZN(r.(y := r.a), r.a)
    case TSX => SetZN(r.(x := r.sp), r.sp)
    case TXA => SetZN(r.(a := r.x), r.x)
    case TXS => r.(sp := r.x)
    case TYA => SetZN(r.(a := r.y), r.y)
    case INX => var t := (r.x + 1) % 256; SetZN(r.(x := t), t)
    case INY => var t := (r.y + 1) % 256; SetZN(r.(y := t), t)
    case DEX => var t := (r.x - 1) % 256; SetZN(r.(x := t), t)
    case DEY => var t := (r.y - 1) % 256; SetZN(r.(y := t), t)
  }

  predicate Taken(op: CondOp, p: Flags) {
    match op
    case BCC => !p.c
    case BCS => p.c
    case BEQ => p.z
    case BNE => !p.z
    case BMI => p.n
    case BPL => !p.n
    case BVC => !p.v
    case BVS => p.v
  }

  // ---------------------------------------------------------------- stack

  /** Slot `k` below the current stack pointer: where the k-th push goes. */
  function PushSlot(sp: byte, k: nat): word {
    STACK_START + (sp - k) % 256
  }

  /** Slot `k` above the current stack pointer: where the k-th pop reads. */
  function PullSlot(sp: byte, k: nat): word {
    STACK_START + (sp + k) % 256
  }

  function EmulPush(op: PushOp, r: Regs): byte {
    match op
    case PHA => r.a
    case PHX => r.x
    case PHY => r.y
    case PHP => Pack(r.p.(b := true, u := true))
  }

  function FromStack(x: byte): Flags {
    Unpack(x).(u := true, b := false)
  }

  function EmulPull(op: PullOp, r: Regs, v: byte): Regs {
    match op
    case PLA => SetZN(r.(a := v), v)
    case PLX => SetZN(r.(x := v), v)
    case PLY => SetZN(r.(y := v), v)
    case PLP => r.(p := FromStack(v))
  }

  /** The three stores of rk65c02_irq. */
  function IrqPushes(sp: byte, pc: word, p: Flags): seq<Write> {
    [Write(PushSlot(sp, 0), pc / 256), Write(PushSlot(sp, 1), pc % 256), Write(PushSlot(sp, 2), Pack(p))]
  }

  /** rk65c02_irq. The vector is read after the pushes, through the same memory. */
  function IrqEntry(c: Cpu, pc: word, p: Flags): Effect {
    var ws := IrqPushes(c.regs.sp, pc, p);
    var m := StoreAll(c.mem, ws);
    Effect(c.regs.(pc := LoadWord(m, VECTOR_IRQ, VECTOR_IRQ + 1),
                   sp := (c.regs.sp - 3) % 256,
                   p := p.(i := true, d := false, b := false)),
           ws, false, c.run)
  }

  // -------------------------------------------------------- one instruction

  function BranchBy(pc: word, offset: int): word {
    (pc + offset) % 0x1_0000
  }

  function EmulJmp(c: Cpu, i: Insn): word
    requires ModeFits(i.def.mode, JMP)
  {
    var abs := i.op1 + 256 * i.op2;
    match i.def.mode
    case Absolute => abs
    case IndAbsolute => LoadWord(c.mem, abs, (abs + 1) % 0x1_0000)
    case IndAbsoluteX =>
      var iaddr := (abs + c.regs.x) % 0x1_0000;
      LoadWord(c.mem, iaddr, (iaddr + 1) % 0x1_0000)
  }

  /** The emulation routine of the instruction, before the PC increment that
      rk65c02_exec makes for rows with modify_pc false. */
  function Emul(c: Cpu, i: Insn): Effect
    requires DefOk(i.def)
  {
    var r := c.regs;
    match i.def.op
    case Read(op) => Keep(c, EmulRead(op, r, DataRead(c, i), i.def.mode == Immediate))
    case Modify(op) => var t := EmulModify(op, r, DataRead(c, i)); DataWrite(c, i, t.0, t.1)
    case Put(op) => DataWrite(c, i, r, EmulPut(op, r))
    case Flag(op) => Keep(c, r.(p := EmulFlag(op, r.p)))
    case Move(op) => Keep(c, EmulMove(op, r))
    case Push(op) => Wrote(c, r.(sp := (r.sp - 1) % 256), [Write(PushSlot(r.sp, 0), EmulPush(op, r))])
    case Pull(op) => Keep(c, EmulPull(op, r.(sp := (r.sp + 1) % 256), Load(c.mem, PullSlot(r.sp, 1))))
    case CondBranch(op) => Keep(c, r.(pc := BranchBy(r.pc, if Taken(op, r.p) then Signed(i.op1) + 2 else i.def.size)))
    case BitBranch(on, k) =>
      var isSet := And(DataRead(c, i), BitMask(k)) != 0;
      Keep(c, r.(pc := BranchBy(r.pc, if isSet == on then Signed(i.op2) + 3 else i.def.size)))
    case BRA => Keep(c, r.(pc := BranchBy(r.pc, Signed(i.op1) + 2)))
    case JMP => Keep(c, r.(pc := EmulJmp(c, i)))
    case JSR =>
      var ret := (r.pc + 2) % 0x1_0000;
      Wrote(c, r.(pc := i.op1 + 256 * i.op2, sp := (r.sp - 2) % 256),
            [Write(PushSlot(r.sp, 0), ret / 256), Write(PushSlot(r.sp, 1), ret % 256)])
    case RTS => Keep(c, r.(pc := LoadWord(c.mem, PullSlot(r.sp, 1), PullSlot(r.sp, 2)), sp := (r.sp + 2) % 256))
    case RTI => Keep(c, r.(p := FromStack(Load(c.mem, PullSlot(r.sp, 1))),
                           pc := LoadWord(c.mem, PullSlot(r.sp, 2), PullSlot(r.sp, 3)),
                           sp := (r.sp + 3) % 256))
    case BRK => IrqEntry(c, (r.pc + 2) % 0x1_0000, r.p.(b := true))
    case STP => Keep(c, r).(run := Stopped(StopStp))
    case WAI => Keep(c, r).(run := Stopped(StopWai))
    case NOP | INVALID => Keep(c, r)
  }

  /** The routine and the PC increment. */
  function Retire(c: Cpu, i: Insn): Effect
    requires DefOk(i.def)
  {
    var e := Emul(c, i);
    if i.def.modifyPc then e else e.(regs := e.regs.(pc := (e.regs.pc + i.def.size) % 0x1_0000))
  }

  /** An interrupt is pending and not masked. */
  predicate TakesIrq(c: Cpu) {
    c.irq && !c.regs.p.i
  }

  /** The machine after interrupt entry, if there is one. */
  function AfterIrq(c: Cpu): Cpu {
    if TakesIrq(c) then Apply(c, IrqEntry(c, c.regs.pc, c.regs.p)) else c
  }

  /** rk65c02_exec without breakpoints, tracing or MMU faults. */
  function Exec(c: Cpu): Cpu {
    var c1 := AfterIrq(c);
    Apply(c1, Retire(c1, Fetch(c1.mem, c1.regs.pc)))
  }

  /** The stores of rk65c02_exec in order, interrupt pushes first. */
  function ExecWrites(c: Cpu): seq<Write> {
    var c1 := AfterIrq(c);
    (if TakesIrq(c) then IrqPushes(c.regs.sp, c.regs.pc, c.regs.p) else [])
    + Retire(c1, Fetch(c1.mem, c1.regs.pc)).writes
  }

  /** `n` instructions. */
  function ExecN(c: Cpu, n: nat): Cpu {
    if n == 0 then c else Exec(ExecN(c, n - 1))
  }
}
