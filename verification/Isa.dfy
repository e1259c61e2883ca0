/** The 256-row opcode table shared by the interpreter, the block builder and
    the assembler. */
module Isa {
  import opened Machine

  datatype Mode =
    | Implied | Immediate | Zp | ZpX | ZpY | IndZp | IndZpX | IndZpY | ZpRel | Relative
    | Absolute | AbsoluteX | AbsoluteY | IndAbsolute | IndAbsoluteX | Accumulator

  type bit = k: nat | k < 8

  /** One leaf per emulation routine, and so per mnemonic, grouped by what the
      routine does with its operand and with PC. */
  datatype Op =
    | Read(read: ReadOp) | Modify(mod: ModifyOp) | Put(put: PutOp)
    | Flag(flag: FlagOp) | Move(move: MoveOp) | Push(push: PushOp) | Pull(pull: PullOp)
    | CondBranch(cond: CondOp) | BitBranch(on: bool, k: bit)
    | BRA | JMP | JSR | RTS | BRK | RTI | NOP | INVALID | STP | WAI

  datatype ReadOp = ADC | AND | BIT | CMP | CPX | CPY | EOR | LDA | LDX | LDY | ORA | SBC
  datatype ModifyOp = ASL | DEC | INC | LSR | ROL | ROR | TRB | TSB | RMB(rmb: bit) | SMB(smb: bit)
  datatype PutOp = STA | STX | STY | STZ
  datatype FlagOp = CLC | CLD | CLI | CLV | SEC | SED | SEI
  datatype MoveOp = TAX | TAY | TSX | TXA | TXS | TYA | INX | INY | DEX | DEY
  datatype PushOp = PHA | PHP | PHX | PHY
  datatype PullOp = PLA | PLP | PLX | PLY
  datatype CondOp = BCC | BCS | BEQ | BMI | BNE | BPL | BVC | BVS

  datatype InstrDef = InstrDef(mode: Mode, size: nat, op: Op, modifyPc: bool)

  /** How many operand bytes the fetch reads for a mode. */
  function Operands(m: Mode): nat {
    match m
    case Immediate | Zp | ZpX | ZpY | IndZp | IndZpX | IndZpY | Relative => 1
    case Absolute | AbsoluteX | AbsoluteY | IndAbsolute | IndAbsoluteX | ZpRel => 2
    case Implied | Accumulator => 0
  }

  /** Modes that name a data address. */
  predicate HasAddress(m: Mode) {
    match m
    case Zp | ZpRel | ZpX | ZpY | IndZp | IndZpX | IndZpY | Absolute | AbsoluteX | AbsoluteY => true
    case _ => false
  }

  /** Routines that set PC themselves. */
  predicate SetsPc(op: Op) {
    op.CondBranch? || op.BitBranch? || op.BRA? || op.JMP? || op.JSR? || op.BRK? || op.RTI?
  }

  predicate ModeFits(m: Mode, op: Op) {
    match op
    case Read(_) => m == Immediate || HasAddress(m)
    case Modify(_) => m == Accumulator || HasAddress(m)
    case Put(_) => HasAddress(m)
    case CondBranch(_) | BRA => m == Relative
    case BitBranch(_, _) => m == ZpRel
    case JMP => m == Absolute || m == IndAbsolute || m == IndAbsoluteX
    case JSR => m == Absolute
    case _ => true
  }

  /** What every row of the table guarantees: the operands fit in the size, a
      routine that touches data has a data mode (so the interpreter's "unhandled
      addressing mode" panics are unreachable), and modify_pc marks exactly the
      routines that set PC themselves. */
  predicate DefOk(d: InstrDef) {
    d.size == Operands(d.mode) + (if d.op.BRK? then 2 else 1) <= 3 && ModeFits(d.mode, d.op) && d.modifyPc == SetsPc(d.op)
  }

  /** The conditional branches, by opcode: 0x10, 0x30, 0x50, ..., 0xF0. */
  predicate CondBranchOpcode(opcode: nat) {
    opcode % 32 == 16
  }

  /** A row of the table at its opcode: the opcodes the JIT singles out are the
      routines it thinks they are. */
  predicate RowOk(opcode: nat, d: InstrDef) {
    && DefOk(d)
    && (d.op.CondBranch? <==> CondBranchOpcode(opcode))
    && (d.op.RTS? <==> opcode == 0x60)
    && (d.op.STP? <==> opcode == 0xDB)
    && (d.op.WAI? <==> opcode == 0xCB)
    && (d.op == Flag(CLI) <==> opcode == 0x58)
    && (d.op == Pull(PLP) <==> opcode == 0x28)
    && (d.op.INVALID? ==> d.size == if opcode % 8 == 3 then 1 else if opcode % 16 == 12 then 3 else 2)
  }

  function Row0(l: nat): (d: InstrDef)
    requires l < 16
    ensures RowOk(0x00 + l, d)
  {
    match l
    case 0x0 => InstrDef(Implied, 2, BRK, true)
    case 0x1 => InstrDef(IndZpX, 2, Read(ORA), false)
    case 0x2 => InstrDef(Immediate, 2, INVALID, false)
    case 0x3 => InstrDef(Implied, 1, INVALID, false)
    case 0x4 => InstrDef(Zp, 2, Modify(TSB), false)
    case 0x5 => InstrDef(Zp, 2, Read(ORA), false)
    case 0x6 => InstrDef(Zp, 2, Modify(ASL), false)
    case 0x7 => InstrDef(Zp, 2, Modify(RMB(0)), false)
    case 0x8 => InstrDef(Implied, 1, Push(PHP), false)
    case 0x9 => InstrDef(Immediate, 2, Read(ORA), false)
    case 0xA => InstrDef(Accumulator, 1, Modify(ASL), false)
    case 0xB => InstrDef(Implied, 1, INVALID, false)
    case 0xC => InstrDef(Absolute, 3, Modify(TSB), false)
    case 0xD => InstrDef(Absolute, 3, Read(ORA), false)
    case 0xE => InstrDef(Absolute, 3, Modify(ASL), false)
    case 0xF => InstrDef(ZpRel, 3, BitBranch(false, 0), true)
  }

  function Row1(l: nat): (d: InstrDef)
    requires l < 16
    ensures RowOk(0x10 + l, d)
  {
    match l
    case 0x0 => InstrDef(Relative, 2, CondBranch(BPL), true)
    case 0x1 => InstrDef(IndZpY, 2, Read(ORA), false)
    case 0x2 => InstrDef(IndZp, 2, Read(ORA), false)
    case 0x3 => InstrDef(Implied, 1, INVALID, false)
    case 0x4 => InstrDef(Zp, 2, Modify(TRB), false)
    case 0x5 => InstrDef(ZpX, 2, Read(ORA), false)
    case 0x6 => InstrDef(ZpX, 2, Modify(ASL), false)
    case 0x7 => InstrDef(Zp, 2, Modify(RMB(1)), false)
    case 0x8 => InstrDef(Implied, 1, Flag(CLC), false)
    case 0x9 => InstrDef(AbsoluteY, 3, Read(ORA), false)
    case 0xA => InstrDef(Accumulator, 1, Modify(INC), false)
    case 0xB => InstrDef(Implied, 1, INVALID, false)
    case 0xC => InstrDef(Absolute, 3, Modify(TRB), false)
    case 0xD => InstrDef(AbsoluteX, 3, Read(ORA), false)
    case 0xE => InstrDef(AbsoluteX, 3, Modify(ASL), false)
    case 0xF => InstrDef(ZpRel, 3, BitBranch(false, 1), true)
  }

  function Row2(l: nat): (d: InstrDef)
    requires l < 16
    ensures RowOk(0x20 + l, d)
  {
    match l
    case 0x0 => InstrDef(Absolute, 3, JSR, true)
    case 0x1 => InstrDef(IndZpX, 2, Read(AND), false)
    case 0x2 => InstrDef(Immediate, 2, INVALID, false)
    case 0x3 => InstrDef(Implied, 1, INVALID, false)
    case 0x4 => InstrDef(Zp, 2, Read(BIT), false)
    case 0x5 => InstrDef(Zp, 2, Read(AND), false)
    case 0x6 => InstrDef(Zp, 2, Modify(ROL), false)
    case 0x7 => InstrDef(Zp, 2, Modify(RMB(2)), false)
    case 0x8 => InstrDef(Implied, 1, Pull(PLP), false)
    case 0x9 => InstrDef(Immediate, 2, Read(AND), false)
    case 0xA => InstrDef(Accumulator, 1, Modify(ROL), false)
    case 0xB => InstrDef(Implied, 1, INVALID, false)
    case 0xC => InstrDef(Absolute, 3, Read(BIT), false)
    case 0xD => InstrDef(Absolute, 3, Read(AND), false)
    case 0xE => InstrDef(Absolute, 3, Modify(ROL), false)
    case 0xF => InstrDef(ZpRel, 3, BitBranch(false, 2), true)
  }

  function Row3(l: nat): (d: InstrDef)
    requires l < 16
    ensures RowOk(0x30 + l, d)
  {
    match l
    case 0x0 => InstrDef(Relative, 2, CondBranch(BMI), true)
    case 0x1 => InstrDef(IndZpY, 2, Read(AND), false)
    case 0x2 => InstrDef(IndZp, 2, Read(AND), false)
    case 0x3 => InstrDef(Implied, 1, INVALID, false)
    case 0x4 => InstrDef(ZpX, 2, Read(BIT), false)
    case 0x5 => InstrDef(ZpX, 2, Read(AND), false)
    case 0x6 => InstrDef(ZpX, 2, Modify(ROL), false)
    case 0x7 => InstrDef(Zp, 2, Modify(RMB(3)), false)
    case 0x8 => InstrDef(Implied, 1, Flag(SEC), false)
    case 0x9 => InstrDef(AbsoluteY, 3, Read(AND), false)
    case 0xA => InstrDef(Accumulator, 1, Modify(DEC), false)
    case 0xB => InstrDef(Implied, 1, INVALID, false)
    case 0xC => InstrDef(AbsoluteX, 3, Read(BIT), false)
    case 0xD => InstrDef(AbsoluteX, 3, Read(AND), false)
    case 0xE => InstrDef(AbsoluteX, 3, Modify(ROL), false)
    case 0xF => InstrDef(ZpRel, 3, BitBranch(false, 3), true)
  }

  function Row4(l: nat): (d: InstrDef)
    requires l < 16
    ensures RowOk(0x40 + l, d)
  {
    match l
    case 0x0 => InstrDef(Implied, 1, RTI, true)
    case 0x1 => InstrDef(IndZpX, 2, Read(EOR), false)
    case 0x2 => InstrDef(Immediate, 2, INVALID, false)
    case 0x3 => InstrDef(Implied, 1, INVALID, false)
    case 0x4 => InstrDef(Zp, 2, INVALID, false)
    case 0x5 => InstrDef(Zp, 2, Read(EOR), false)
    case 0x6 => InstrDef(Zp, 2, Modify(LSR), false)
    case 0x7 => InstrDef(Zp, 2, Modify(RMB(4)), false)
    case 0x8 => InstrDef(Implied, 1, Push(PHA), false)
    case 0x9 => InstrDef(Immediate, 2, Read(EOR), false)
    case 0xA => InstrDef(Accumulator, 1, Modify(LSR), false)
    case 0xB => InstrDef(Implied, 1, INVALID, false)
    case 0xC => InstrDef(Absolute, 3, JMP, true)
    case 0xD => InstrDef(Absolute, 3, Read(EOR), false)
    case 0xE => InstrDef(Absolute, 3, Modify(LSR), false)
    case 0xF => InstrDef(ZpRel, 3, BitBranch(false, 4), true)
  }

  function Row5(l: nat): (d: InstrDef)
    requires l < 16
    ensures RowOk(0x50 + l, d)
  {
    match l
    case 0x0 => InstrDef(Relative, 2, CondBranch(BVC), true)
    case 0x1 => InstrDef(IndZpY, 2, Read(EOR), false)
    case 0x2 => InstrDef(IndZp, 2, Read(EOR), false)
    case 0x3 => InstrDef(Implied, 1, INVALID, false)
    case 0x4 => InstrDef(ZpX, 2, INVALID, false)
    case 0x5 => InstrDef(ZpX, 2, Read(EOR), false)
    case 0x6 => InstrDef(ZpX, 2, Modify(LSR), false)
    case 0x7 => InstrDef(Zp, 2, Modify(RMB(5)), false)
    case 0x8 => InstrDef(Implied, 1, Flag(CLI), false)
    case 0x9 => InstrDef(AbsoluteY, 3, Read(EOR), false)
    case 0xA => InstrDef(Implied, 1, Push(PHY), false)
    case 0xB => InstrDef(Implied, 1, INVALID, false)
    case 0xC => InstrDef(Absolute, 3, INVALID, false)
    case 0xD => InstrDef(AbsoluteX, 3, Read(EOR), false)
    case 0xE => InstrDef(AbsoluteX, 3, Modify(LSR), false)
    case 0xF => InstrDef(ZpRel, 3, BitBranch(false, 5), true)
  }

  function Row6(l: nat): (d: InstrDef)
    requires l < 16
    ensures RowOk(0x60 + l, d)
  {
    match l
    case 0x0 => InstrDef(Implied, 1, RTS, false)
    case 0x1 => InstrDef(IndZpX, 2, Read(ADC), false)
    case 0x2 => InstrDef(Immediate, 2, INVALID, false)
    case 0x3 => InstrDef(Implied, 1, INVALID, false)
    case 0x4 => InstrDef(Zp, 2, Put(STZ), false)
    case 0x5 => InstrDef(Zp, 2, Read(ADC), false)
    case 0x6 => InstrDef(Zp, 2, Modify(ROR), false)
    case 0x7 => InstrDef(Zp, 2, Modify(RMB(6)), false)
    case 0x8 => InstrDef(Implied, 1, Pull(PLA), false)
    case 0x9 => InstrDef(Immediate, 2, Read(ADC), false)
    case 0xA => InstrDef(Accumulator, 1, Modify(ROR), false)
    case 0xB => InstrDef(Implied, 1, INVALID, false)
    case 0xC => InstrDef(IndAbsolute, 3, JMP, true)
    case 0xD => InstrDef(Absolute, 3, Read(ADC), false)
    case 0xE => InstrDef(Absolute, 3, Modify(ROR), false)
    case 0xF => InstrDef(ZpRel, 3, BitBranch(false, 6), true)
  }

  function Row7(l: nat): (d: InstrDef)
    requires l < 16
    ensures RowOk(0x70 + l, d)
  {
    match l
    case 0x0 => InstrDef(Relative, 2, CondBranch(BVS), true)
    case 0x1 => InstrDef(IndZpY, 2, Read(ADC), false)
    case 0x2 => InstrDef(IndZp, 2, Read(ADC), false)
    case 0x3 => InstrDef(Implied, 1, INVALID, false)
    case 0x4 => InstrDef(ZpX, 2, Put(STZ), false)
    case 0x5 => InstrDef(ZpX, 2, Read(ADC), false)
    case 0x6 => InstrDef(ZpX, 2, Modify(ROR), false)
    case 0x7 => InstrDef(Zp, 2, Modify(RMB(7)), false)
    case 0x8 => InstrDef(Implied, 1, Flag(SEI), false)
    case 0x9 => InstrDef(AbsoluteY, 3, Read(ADC), false)
    case 0xA => InstrDef(Implied, 1, Pull(PLY), false)
    case 0xB => InstrDef(Implied, 1, INVALID, false)
    case 0xC => InstrDef(IndAbsoluteX, 3, JMP, true)
    case 0xD => InstrDef(AbsoluteX, 3, Read(ADC), false)
    case 0xE => InstrDef(AbsoluteX, 3, Modify(ROR), false)
    case 0xF => InstrDef(ZpRel, 3, BitBranch(false, 7), true)
  }

  function Row8(l: nat): (d: InstrDef)
    requires l < 16
    ensures RowOk(0x80 + l, d)
  {
    match l
    case 0x0 => InstrDef(Relative, 2, BRA, true)
    case 0x1 => InstrDef(IndZpX, 2, Put(STA), false)
    case 0x2 => InstrDef(Immediate, 2, INVALID, false)
    case 0x3 => InstrDef(Implied, 1, INVALID, false)
    case 0x4 => InstrDef(Zp, 2, Put(STY), false)
    case 0x5 => InstrDef(Zp, 2, Put(STA), false)
    case 0x6 => InstrDef(Zp, 2, Put(STX), false)
    case 0x7 => InstrDef(Zp, 2, Modify(SMB(0)), false)
    case 0x8 => InstrDef(Implied, 1, Move(DEY), false)
    case 0x9 => InstrDef(Immediate, 2, Read(BIT), false)
    case 0xA => InstrDef(Implied, 1, Move(TXA), false)
    case 0xB => InstrDef(Implied, 1, INVALID, false)
    case 0xC => InstrDef(Absolute, 3, Put(STY), false)
    case 0xD => InstrDef(Absolute, 3, Put(STA), false)
    case 0xE => InstrDef(Absolute, 3, Put(STX), false)
    case 0xF => InstrDef(ZpRel, 3, BitBranch(true, 0), true)
  }

  function Row9(l: nat): (d: InstrDef)
    requires l < 16
    ensures RowOk(0x90 + l, d)
  {
    match l
    case 0x0 => InstrDef(Relative, 2, CondBranch(BCC), true)
    case 0x1 => InstrDef(IndZpY, 2, Put(STA), false)
    case 0x2 => InstrDef(IndZp, 2, Put(STA), false)
    case 0x3 => InstrDef(Implied, 1, INVALID, false)
    case 0x4 => InstrDef(ZpX, 2, Put(STY), false)
    case 0x5 => InstrDef(ZpX, 2, Put(STA), false)
    case 0x6 => InstrDef(ZpY, 2, Put(STX), false)
    case 0x7 => InstrDef(Zp, 2, Modify(SMB(1)), false)
    case 0x8 => InstrDef(Implied, 1, Move(TYA), false)
    case 0x9 => InstrDef(AbsoluteY, 3, Put(STA), false)
    case 0xA => InstrDef(Implied, 1, Move(TXS), false)
    case 0xB => InstrDef(Implied, 1, INVALID, false)
    case 0xC => InstrDef(Absolute, 3, Put(STZ), false)
    case 0xD => InstrDef(AbsoluteX, 3, Put(STA), false)
    case 0xE => InstrDef(AbsoluteX, 3, Put(STZ), false)
    case 0xF => InstrDef(ZpRel, 3, BitBranch(true, 1), true)
  }

  function RowA(l: nat): (d: InstrDef)
    requires l < 16
    ensures RowOk(0xA0 + l, d)
  {
    match l
    case 0x0 => InstrDef(Immediate, 2, Read(LDY), false)
    case 0x1 => InstrDef(IndZpX, 2, Read(LDA), false)
    case 0x2 => InstrDef(Immediate, 2, Read(LDX), false)
    case 0x3 => InstrDef(Implied, 1, INVALID, false)
    case 0x4 => InstrDef(Zp, 2, Read(LDY), false)
    case 0x5 => InstrDef(Zp, 2, Read(LDA), false)
    case 0x6 => InstrDef(Zp, 2, Read(LDX), false)
    case 0x7 => InstrDef(Zp, 2, Modify(SMB(2)), false)
    case 0x8 => InstrDef(Implied, 1, Move(TAY), false)
    case 0x9 => InstrDef(Immediate, 2, Read(LDA), false)
    case 0xA => InstrDef(Implied, 1, Move(TAX), false)
    case 0xB => InstrDef(Implied, 1, INVALID, false)
    case 0xC => InstrDef(Absolute, 3, Read(LDY), false)
    case 0xD => InstrDef(Absolute, 3, Read(LDA), false)
    case 0xE => InstrDef(Absolute, 3, Read(LDX), false)
    case 0xF => InstrDef(ZpRel, 3, BitBranch(true, 2), true)
  }

  function RowB(l: nat): (d: InstrDef)
    requires l < 16
    ensures RowOk(0xB0 + l, d)
  {
    match l
    case 0x0 => InstrDef(Relative, 2, CondBranch(BCS), true)
    case 0x1 => InstrDef(IndZpY, 2, Read(LDA), false)
    case 0x2 => InstrDef(IndZp, 2, Read(LDA), false)
    case 0x3 => InstrDef(Implied, 1, INVALID, false)
    case 0x4 => InstrDef(ZpX, 2, Read(LDY), false)
    case 0x5 => InstrDef(ZpX, 2, Read(LDA), false)
    case 0x6 => InstrDef(ZpY, 2, Read(LDX), false)
    case 0x7 => InstrDef(Zp, 2, Modify(SMB(3)), false)
    case 0x8 => InstrDef(Implied, 1, Flag(CLV), false)
    case 0x9 => InstrDef(AbsoluteY, 3, Read(LDA), false)
    case 0xA => InstrDef(Implied, 1, Move(TSX), false)
    case 0xB => InstrDef(Implied, 1, INVALID, false)
    case 0xC => InstrDef(AbsoluteX, 3, Read(LDY), false)
    case 0xD => InstrDef(AbsoluteX, 3, Read(LDA), false)
    case 0xE => InstrDef(AbsoluteY, 3, Read(LDX), false)
    case 0xF => InstrDef(ZpRel, 3, BitBranch(true, 3), true)
  }

  function RowC(l: nat): (d: InstrDef)
    requires l < 16
    ensures RowOk(0xC0 + l, d)
  {
    match l
    case 0x0 => InstrDef(Immediate, 2, Read(CPY), false)
    case 0x1 => InstrDef(IndZpX, 2, Read(CMP), false)
    case 0x2 => InstrDef(Immediate, 2, INVALID, false)
    case 0x3 => InstrDef(Implied, 1, INVALID, false)
    case 0x4 => InstrDef(Zp, 2, Read(CPY), false)
    case 0x5 => InstrDef(Zp, 2, Read(CMP), false)
    case 0x6 => InstrDef(Zp, 2, Modify(DEC), false)
    case 0x7 => InstrDef(Zp, 2, Modify(SMB(4)), false)
    case 0x8 => InstrDef(Implied, 1, Move(INY), false)
    case 0x9 => InstrDef(Immediate, 2, Read(CMP), false)
    case 0xA => InstrDef(Implied, 1, Move(DEX), false)
    case 0xB => InstrDef(Implied, 1, WAI, false)
    case 0xC => InstrDef(Absolute, 3, Read(CPY), false)
    case 0xD => InstrDef(Absolute, 3, Read(CMP), false)
    case 0xE => InstrDef(Absolute, 3, Modify(DEC), false)
    case 0xF => InstrDef(ZpRel, 3, BitBranch(true, 4), true)
  }

  function RowD(l: nat): (d: InstrDef)
    requires l < 16
    ensures RowOk(0xD0 + l, d)
  {
    match l
    case 0x0 => InstrDef(Relative, 2, CondBranch(BNE), true)
    case 0x1 => InstrDef(IndZpY, 2, Read(CMP), false)
    case 0x2 => InstrDef(IndZp, 2, Read(CMP), false)
    case 0x3 => InstrDef(Implied, 1, INVALID, false)
    case 0x4 => InstrDef(ZpX, 2, INVALID, false)
    case 0x5 => InstrDef(ZpX, 2, Read(CMP), false)
    case 0x6 => InstrDef(ZpX, 2, Modify(DEC), false)
    case 0x7 => InstrDef(Zp, 2, Modify(SMB(5)), false)
    case 0x8 => InstrDef(Implied, 1, Flag(CLD), false)
    case 0x9 => InstrDef(AbsoluteY, 3, Read(CMP), false)
    case 0xA => InstrDef(Implied, 1, Push(PHX), false)
    case 0xB => InstrDef(Implied, 1, STP, false)
    case 0xC => InstrDef(Absolute, 3, INVALID, false)
    case 0xD => InstrDef(AbsoluteX, 3, Read(CMP), false)
    case 0xE => InstrDef(AbsoluteX, 3, Modify(DEC), false)
    case 0xF => InstrDef(ZpRel, 3, BitBranch(true, 5), true)
  }

  function RowE(l: nat): (d: InstrDef)
    requires l < 16
    ensures RowOk(0xE0 + l, d)
  {
    match l
    case 0x0 => InstrDef(Immediate, 2, Read(CPX), false)
    case 0x1 => InstrDef(IndZpX, 2, Read(SBC), false)
    case 0x2 => InstrDef(Immediate, 2, INVALID, false)
    case 0x3 => InstrDef(Implied, 1, INVALID, false)
    case 0x4 => InstrDef(Zp, 2, Read(CPX), false)
    case 0x5 => InstrDef(Zp, 2, Read(SBC), false)
    case 0x6 => InstrDef(Zp, 2, Modify(INC), false)
    case 0x7 => InstrDef(Zp, 2, Modify(SMB(6)), false)
    case 0x8 => InstrDef(Implied, 1, Move(INX), false)
    case 0x9 => InstrDef(Immediate, 2, Read(SBC), false)
    case 0xA => InstrDef(Implied, 1, NOP, false)
    case 0xB => InstrDef(Implied, 1, INVALID, false)
    case 0xC => InstrDef(Absolute, 3, Read(CPX), false)
    case 0xD => InstrDef(Absolute, 3, Read(SBC), false)
    case 0xE => InstrDef(Absolute, 3, Modify(INC), false)
    case 0xF => InstrDef(ZpRel, 3, BitBranch(true, 6), true)
  }

  function RowF(l: nat): (d: InstrDef)
    requires l < 16
    ensures RowOk(0xF0 + l, d)
  {
    match l
    case 0x0 => InstrDef(Relative, 2, CondBranch(BEQ), true)
    case 0x1 => InstrDef(IndZpY, 2, Read(SBC), false)
    case 0x2 => InstrDef(IndZp, 2, Read(SBC), false)
    case 0x3 => InstrDef(Implied, 1, INVALID, false)
    case 0x4 => InstrDef(ZpX, 2, INVALID, false)
    case 0x5 => InstrDef(ZpX, 2, Read(SBC), false)
    case 0x6 => InstrDef(ZpX, 2, Modify(INC), false)
    case 0x7 => InstrDef(Zp, 2, Modify(SMB(7)), false)
    case 0x8 => InstrDef(Implied, 1, Flag(SED), false)
    case 0x9 => InstrDef(AbsoluteY, 3, Read(SBC), false)
    case 0xA => InstrDef(Implied, 1, Pull(PLX), false)
    case 0xB => InstrDef(Implied, 1, INVALID, false)
    case 0xC => InstrDef(Absolute, 3, INVALID, false)
    case 0xD => InstrDef(AbsoluteX, 3, Read(SBC), false)
    case 0xE => InstrDef(AbsoluteX, 3, Modify(INC), false)
    case 0xF => InstrDef(ZpRel, 3, BitBranch(true, 7), true)
  }

  function Def(opcode: byte): (d: InstrDef)
    ensures RowOk(opcode, d)
  {
    var l := opcode % 16;
    match opcode / 16
    case 0x0 => Row0(l) case 0x1 => Row1(l) case 0x2 => Row2(l) case 0x3 => Row3(l)
    case 0x4 => Row4(l) case 0x5 => Row5(l) case 0x6 => Row6(l) case 0x7 => Row7(l)
    case 0x8 => Row8(l) case 0x9 => Row9(l) case 0xA => RowA(l) case 0xB => RowB(l)
    case 0xC => RowC(l) case 0xD => RowD(l) case 0xE => RowE(l) case 0xF => RowF(l)
  }

  /** A fetched instruction with its table row. Operand bytes the mode does not
      fetch are never read; they are 0 here. */
  datatype Insn = Insn(opcode: byte, op1: byte, op2: byte, def: InstrDef)

  function Fetch(m: Memory, pc: word): (i: Insn)
    ensures i.opcode == Load(m, pc) && i.def == Def(i.opcode) && DefOk(i.def)
  {
    var opcode := Load(m, pc);
    var d := Def(opcode);
    Insn(opcode,
         if Operands(d.mode) >= 1 then Load(m, (pc + 1) % 0x1_0000) else 0,
         if Operands(d.mode) >= 2 then Load(m, (pc + 2) % 0x1_0000) else 0,
         d)
  }
}
