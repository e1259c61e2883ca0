/** Emitted code and the interpreter agree on every instruction. */
module Simulation {
  import opened Machine
  import opened Isa
  import opened Alu
  import opened Interpreter
  import opened Emitter

  /** The routine a template stands for; INVALID for combinations the switch
      never produces. */
  function Meant(t: Template, opcode: byte): Op {
    match t
    case TNop => NOP
    case TFlag(FlagC, on) => Flag(if on then SEC else CLC)
    case TFlag(FlagI, on) => Flag(if on then SEI else CLI)
    case TFlag(FlagD, on) => Flag(if on then SED else CLD)
    case TFlag(FlagV, false) => Flag(CLV)
    case TMove(RegA, RegX) => Move(TAX)
    case TMove(RegA, RegY) => Move(TAY)
    case TMove(RegX, RegA) => Move(TXA)
    case TMove(RegY, RegA) => Move(TYA)
    case TMove(RegSp, RegX) => Move(TSX)
    case TMove(RegX, RegSp) => Move(TXS)
    case TBump(RegX, up) => Move(if up then INX else DEX)
    case TBump(RegY, up) => Move(if up then INY else DEY)
    case TBump(RegA, up) => Modify(if up then INC else DEC)
    case TLoad(RegA) => Read(LDA)
    case TLoad(RegX) => Read(LDX)
    case TLoad(RegY) => Read(LDY)
    case TStore(RegA) => Put(STA)
    case TStore(RegX) => Put(STX)
    case TStore(RegY) => Put(STY)
    case TStore(Zero) => Put(STZ)
    case TLogic(LAnd) => Read(AND)
    case TLogic(LOr) => Read(ORA)
    case TLogic(LXor) => Read(EOR)
    case TAdd => Read(ADC)
    case TSubtract => Read(SBC)
    case TCompare(RegA) => Read(CMP)
    case TCompare(RegX) => Read(CPX)
    case TCompare(RegY) => Read(CPY)
    case TBumpMem(up) => Modify(if up then INC else DEC)
    case TShiftA(k) => Modify(ShiftOp(k))
    case TShiftMem(k) => Modify(ShiftOp(k))
    case TBitTest => Read(BIT)
    case TResetBit => Modify(RMB(OpcodeBit(opcode)))
    case TSetBit => Modify(SMB(OpcodeBit(opcode)))
    case TTestReset => Modify(TRB)
    case TTestSet => Modify(TSB)
    case TBranchOnBit => BitBranch(opcode >= 0x80, OpcodeBit(opcode))
    case TPush(RegA) => Push(PHA)
    case TPush(RegX) => Push(PHX)
    case TPush(RegY) => Push(PHY)
    case TPush(RegP) => Push(PHP)
    case TPull(RegA) => Pull(PLA)
    case TPull(RegX) => Pull(PLX)
    case TPull(RegY) => Pull(PLY)
    case TPull(RegP) => Pull(PLP)
    case TBranchAlways => BRA
    case TBranchIf(FlagC, on) => CondBranch(if on then BCS else BCC)
    case TBranchIf(FlagZ, on) => CondBranch(if on then BEQ else BNE)
    case TBranchIf(FlagN, on) => CondBranch(if on then BMI else BPL)
    case TBranchIf(FlagV, on) => CondBranch(if on then BVS else BVC)
    case TJump => JMP
    case TJumpIndirect => JMP
    case TCall => JSR
    case TReturn => RTS
    case _ => INVALID
  }

  function ShiftOp(k: Shift): ModifyOp {
    match k
    case Asl => ASL
    case Lsr => LSR
    case Rol => ROL
    case Ror => ROR
  }

  /** Modes jit_emit_effaddr handles for data. */
  predicate Direct(m: Mode) {
    HasAddress(m) && m != ZpRel
  }

  predicate MeantMode(t: Template, m: Mode) {
    match t
    case TLoad(_) | TLogic(_) | TAdd | TSubtract | TCompare(_) | TBitTest => m == Immediate || Direct(m)
    case TStore(_) | TBumpMem(_) | TShiftMem(_) | TResetBit | TSetBit | TTestReset | TTestSet => Direct(m)
    case TBump(RegA, _) | TShiftA(_) => m == Accumulator
    case TJump => m == Absolute
    case TJumpIndirect => m == IndAbsolute
    case TReturn => m == Implied
    case _ => true
  }

  /** The template was chosen for this table row. */
  predicate Compiles(t: Template, opcode: byte, d: InstrDef) {
    d.op == Meant(t, opcode) && !d.op.INVALID? && MeantMode(t, d.mode)
  }

  lemma SwitchRow0(l: nat)
    requires l < 16
    ensures var t := Emit0(l); t.TFallback? || Compiles(t, 0x00 + l, Row0(l))
  {}

  lemma SwitchRow1(l: nat)
    requires l < 16
    ensures var t := Emit1(l); t.TFallback? || Compiles(t, 0x10 + l, Row1(l))
  {}

  lemma SwitchRow2(l: nat)
    requires l < 16
    ensures var t := Emit2(l); t.TFallback? || Compiles(t, 0x20 + l, Row2(l))
  {}

  lemma SwitchRow3(l: nat)
    requires l < 16
    ensures var t := Emit3(l); t.TFallback? || Compiles(t, 0x30 + l, Row3(l))
  {}

  lemma SwitchRow4(l: nat)
    requires l < 16
    ensures var t := Emit4(l); t.TFallback? || Compiles(t, 0x40 + l, Row4(l))
  {}

  lemma SwitchRow5(l: nat)
    requires l < 16
    ensures var t := Emit5(l); t.TFallback? || Compiles(t, 0x50 + l, Row5(l))
  {}

  lemma SwitchRow6(l: nat)
    requires l < 16
    ensures var t := Emit6(l); t.TFallback? || Compiles(t, 0x60 + l, Row6(l))
  {}

  lemma SwitchRow7(l: nat)
    requires l < 16
    ensures var t := Emit7(l); t.TFallback? || Compiles(t, 0x70 + l, Row7(l))
  {}

  lemma SwitchRow8(l: nat)
    requires l < 16
    ensures var t := Emit8(l); t.TFallback? || Compiles(t, 0x80 + l, Row8(l))
  {}

  lemma SwitchRow9(l: nat)
    requires l < 16
    ensures var t := Emit9(l); t.TFallback? || Compiles(t, 0x90 + l, Row9(l))
  {}

  lemma SwitchRowA(l: nat)
    requires l < 16
    ensures var t := EmitA(l); t.TFallback? || Compiles(t, 0xA0 + l, RowA(l))
  {}

  lemma SwitchRowB(l: nat)
    requires l < 16
    ensures var t := EmitB(l); t.TFallback? || Compiles(t, 0xB0 + l, RowB(l))
  {}

  lemma SwitchRowC(l: nat)
    requires l < 16
    ensures var t := EmitC(l); t.TFallback? || Compiles(t, 0xC0 + l, RowC(l))
  {}

  lemma SwitchRowD(l: nat)
    requires l < 16
    ensures var t := EmitD(l); t.TFallback? || Compiles(t, 0xD0 + l, RowD(l))
  {}

  lemma SwitchRowE(l: nat)
    requires l < 16
    ensures var t := EmitE(l); t.TFallback? || Compiles(t, 0xE0 + l, RowE(l))
  {}

  lemma SwitchRowF(l: nat)
    requires l < 16
    ensures var t := EmitF(l); t.TFallback? || Compiles(t, 0xF0 + l, RowF(l))
  {}

  /** jit_emit_insn's switch and the interpreter's table agree on every opcode. */
  lemma SwitchAgrees(opcode: byte)
    ensures var t := Emit(opcode); t.TFallback? || Compiles(t, opcode, Def(opcode))
  {
    hide Compiles;
    var l := opcode % 16;
    assert opcode == 16 * (opcode / 16) + l;
    match opcode / 16
    case 0x0 => SwitchRow0(l);
    case 0x1 => SwitchRow1(l);
    case 0x2 => SwitchRow2(l);
    case 0x3 => SwitchRow3(l);
    case 0x4 => SwitchRow4(l);
    case 0x5 => SwitchRow5(l);
    case 0x6 => SwitchRow6(l);
    case 0x7 => SwitchRow7(l);
    case 0x8 => SwitchRow8(l);
    case 0x9 => SwitchRow9(l);
    case 0xA => SwitchRowA(l);
    case 0xB => SwitchRowB(l);
    case 0xC => SwitchRowC(l);
    case 0xD => SwitchRowD(l);
    case 0xE => SwitchRowE(l);
    case 0xF => SwitchRowF(l);
  }

  // ------------------------------------------------------ emitted pieces

  lemma Bit7OfPack(f: Flags)
    ensures Bit7(Pack(f)) == f.n && (Pack(f) >= 128) == f.n
  {}

  lemma AndMask80(x: byte)
    ensures (And(x, 0x80) != 0) == (x >= 128)
  {
    hide Unpack;
    SignBit(x);
    OneBits();
  }

  lemma AndMask01(x: byte)
    ensures (And(x, 0x01) != 0) == (x % 2 == 1)
  {
    hide Unpack;
    LowBit(x);
    OneBits();
  }

  lemma OneBits()
    ensures Unpack(0x80) == Flags(true, false, false, false, false, false, false, false)
    ensures Unpack(0x01) == Flags(false, false, false, false, false, false, false, true)
  {}

  lemma LowBit(x: byte)
    ensures Unpack(x).c == (x % 2 == 1)
  {}

  lemma PackComplement(f: Flags)
    ensures Pack(Flags(!f.n, !f.v, !f.u, !f.b, !f.d, !f.i, !f.z, !f.c)) == 255 - Pack(f)
  {}

  lemma AllOnes()
    ensures Unpack(0xFF) == Flags(true, true, true, true, true, true, true, true)
  {}

  lemma SignBit(x: byte)
    ensures Unpack(x).n == (x >= 128)
  {}

  lemma XorFF(x: byte)
    ensures Xor(x, 0xFF) == 255 - x
  {
    hide Pack, Unpack;
    AllOnes();
    PackComplement(Unpack(x));
    PackUnpack(x);
  }

  lemma XorSign(x: byte, y: byte)
    ensures (Xor(x, y) >= 128) == ((x >= 128) != (y >= 128))
  {
    hide Pack, Unpack;
    SignBit(x);
    SignBit(y);
    Bit7OfPack(Differ(Unpack(x), Unpack(y)));
  }

  lemma AndSign(x: byte, y: byte)
    ensures (And(x, y) >= 128) == (x >= 128 && y >= 128)
  {
    hide Pack, Unpack;
    SignBit(x);
    SignBit(y);
    Bit7OfPack(Both(Unpack(x), Unpack(y)));
  }

  lemma UpdateZNIsAdjust(r: Regs, v: byte)
    ensures UpdateZN(r, v) == SetZN(r, v)
  {
    AndMask80(v);
    hide And;
  }

  /** The emitted addition is ADC. */
  lemma EmittedAddIsAdc(a: byte, m: byte, p: Flags)
    ensures EmittedAdd(a, m, p) == AdcBinary(a, m, p)
  {
    hide And, Xor, Overflows8, Signed, UpdateZN, AdjustZN;
    var s: nat := a + m + Carry(p.c);
    var res := s % 256;
    SignTest(a, m, res);
    SignsOverflow(a, m, Carry(p.c));
    UpdateZNIsAdjust(Regs(res, 0, 0, 0, 0, p.(c := s >= 256, v := Overflows8(Signed(a) + Signed(m) + Carry(p.c)))), res);
  }

  /** The emitted overflow test compares signs. */
  lemma SignTest(a: byte, m: byte, res: byte)
    ensures (And(And(Xor(a, res), Xor(m, res)), 0x80) != 0) == ((a >= 128) != (res >= 128) && (m >= 128) != (res >= 128))
  {
    hide And, Xor;
    XorSign(a, res);
    XorSign(m, res);
    AndSign(Xor(a, res), Xor(m, res));
    AndMask80(And(Xor(a, res), Xor(m, res)));
  }

  lemma SignsOverflow(a: byte, m: byte, c: nat)
    requires c <= 1
    ensures var res := (a + m + c) % 256;
            ((a >= 128) != (res >= 128) && (m >= 128) != (res >= 128)) == Overflows8(Signed(a) + Signed(m) + c)
  {}

  /** Adding the complement is SBC. */
  lemma EmittedSubtractIsSbc(a: byte, m: byte, p: Flags)
    ensures EmittedSubtract(a, m, p) == SbcBinary(a, m, p)
  {
    hide Xor, EmittedAdd;
    XorFF(m);
    EmittedAddIsAdc(a, 255 - m, p);
  }

  lemma CompareAgrees(r: Regs, x: byte, m: byte)
    ensures r.(p := EmittedCompare(r.p, x, m)) == CompareWith(r, x, m)
  {
    AndMask80((x - m) % 256);
    hide And;
  }

  lemma BitAgrees(r: Regs, m: byte, immediate: bool)
    ensures r.(p := EmittedBit(r.p, r.a, m, immediate)) == EmulRead(BIT, r, m, immediate)
  {
    hide And;
  }

  lemma ShiftBits(k: Shift, v: byte, c: bool)
    ensures EmittedShift(k, v, c) == match k
              case Asl => (v >= 128, 2 * v % 256)
              case Lsr => (v % 2 == 1, v / 2)
              case Rol => (v >= 128, 2 * v % 256 + Carry(c))
              case Ror => (v % 2 == 1, v / 2 + 128 * Carry(c))
  {
    hide And;
    AndMask80(v);
    AndMask01(v);
  }

  lemma ShiftAgrees(k: Shift, r: Regs, v: byte)
    ensures var s := EmittedShift(k, v, r.p.c);
            (UpdateZN(r.(p := r.p.(c := s.0)), s.1), s.1) == EmulModify(ShiftOp(k), r, v)
  {
    hide EmittedShift, UpdateZN;
    var s := EmittedShift(k, v, r.p.c);
    ShiftBits(k, v, r.p.c);
    UpdateZNIsAdjust(r.(p := r.p.(c := s.0)), s.1);
  }

  /** PHP pushes P with B and bit 5 set. */
  lemma PhpAgrees(p: Flags)
    ensures Or(Pack(p), 0x30) == Pack(p.(b := true, u := true))
  {
    UnpackPack(p);
    assert Unpack(0x30) == Flags(false, false, true, true, false, false, false, false);
    hide Pack, Unpack;
  }

  /** Effective addresses agree once the callee has truncated them to 16 bits. */
  lemma AddressAgrees(c: Cpu, i: Insn)
    requires Direct(i.def.mode)
    ensures HostAddress(c, i) % 0x1_0000 == DataAddress(c, i)
  {
    hide Load;
  }

  lemma OperandAgrees(c: Cpu, i: Insn)
    requires i.def.mode == Immediate || Direct(i.def.mode)
    ensures LoadOperand(c, i) == DataRead(c, i)
  {
    hide HostAddress, DataAddress, Load;
    if i.def.mode != Immediate {
      AddressAgrees(c, i);
    }
  }

  // ------------------------------------------------- whole instructions

  /** Register templates against the flag, transfer and accumulator routines. */
  lemma InnerAgrees(t: Template, c: Cpu, i: Insn)
    requires IsInner(t) && !t.TShiftA? && DefOk(i.def) && Compiles(t, i.opcode, i.def)
    ensures Emul(c, i) == Quiet(c, RunInner(t, c.regs)) && !i.def.modifyPc
  {
    hide UpdateZN, Pack, Unpack, EmittedShift, DataAddress, AdjustZN, EmulRead, EmulPut, EmulPush, EmulPull,
      EmulJmp, IrqEntry, FromStack;
    var r := c.regs;
    match t
    case TNop | TFlag(_, _) =>
    case TMove(src, dst) => UpdateZNIsAdjust(Set(r, dst, Get(r, src)), Get(r, src));
    case TBump(reg, up) =>
      var v := BumpByte(Get(r, reg), up);
      UpdateZNIsAdjust(Set(r, reg, v), v);
  }

  lemma ShiftAAgrees(t: Template, c: Cpu, i: Insn)
    requires t.TShiftA? && DefOk(i.def) && Compiles(t, i.opcode, i.def)
    ensures Emul(c, i) == Quiet(c, RunInner(t, c.regs)) && !i.def.modifyPc
  {
    hide UpdateZN, EmittedShift, EmulModify;
    var r := c.regs;
    var s := EmittedShift(t.shift, r.a, r.p.c);
    ShiftAgrees(t.shift, r, r.a);
    UpdateZNIsAdjust(r.(p := r.p.(c := s.0)), s.1);
    UpdateZNIsAdjust(r.(a := s.1, p := r.p.(c := s.0)), s.1);
  }

  /** Operand templates against the reading routines. */
  lemma ReadAgrees(t: Template, opcode: byte, r: Regs, m: byte, immediate: bool)
    requires IsRead(t) && Meant(t, opcode).Read?
    ensures RunRead(t, r, m, immediate) == EmulRead(Meant(t, opcode).read, r, m, immediate)
  {
    hide And, Or, Xor, UpdateZN, SetZN, EmittedAdd, EmittedSubtract, EmittedCompare, EmittedBit,
      AdcBinary, AdcDecimal, SbcBinary, SbcDecimal, CompareWith;
    match t
    case TLoad(reg) => UpdateZNIsAdjust(Set(r, reg, m), m);
    case TLogic(k) => UpdateZNIsAdjust(r.(a := Logical(k, r.a, m)), Logical(k, r.a, m));
    case TAdd => EmittedAddIsAdc(r.a, m, r.p);
    case TSubtract => EmittedSubtractIsSbc(r.a, m, r.p);
    case TCompare(reg) => CompareAgrees(r, Get(r, reg), m);
    case TBitTest => BitAgrees(r, m, immediate);
  }

  /** Read-modify-write templates against the modifying routines. */
  lemma ModifyAgrees(t: Template, opcode: byte, r: Regs, m: byte)
    requires IsModify(t) && Meant(t, opcode).Modify?
    ensures RunModify(t, r, m, opcode) == EmulModify(Meant(t, opcode).mod, r, m)
  {
    hide And, Or, Xor, UpdateZN, EmittedShift;
    if t.TBumpMem? {
      UpdateZNIsAdjust(r, BumpByte(m, t.up));
    } else if t.TShiftMem? {
      ShiftAgrees(t.shift, r, m);
    }
  }

  lemma SimulateRead(t: Template, c: Cpu, i: Insn)
    requires IsRead(t) && DefOk(i.def) && Compiles(t, i.opcode, i.def)
    ensures Emul(c, i) == Quiet(c, RunRead(t, c.regs, LoadOperand(c, i), i.def.mode == Immediate)) && !i.def.modifyPc
  {
    hide LoadOperand, DataRead, RunRead, EmulRead;
    OperandAgrees(c, i);
    ReadAgrees(t, i.opcode, c.regs, DataRead(c, i), i.def.mode == Immediate);
  }

  lemma SimulateModify(t: Template, c: Cpu, i: Insn)
    requires IsModify(t) && DefOk(i.def) && Compiles(t, i.opcode, i.def)
    ensures RunTemplate(t, c, i, c.regs.pc) == Retire(c, i)
  {
    hide HostAddress, DataAddress, Load, RunModify, EmulModify, RunInner, RunRead, RunJump, RunPush, RunPull,
      LoadOperand, EmulRead, EmulPut, EmulFlag, EmulMove, EmulPush, EmulPull, EmulJmp, IrqEntry, FromStack;
    AddressAgrees(c, i);
    ModifyAgrees(t, i.opcode, c.regs, DataRead(c, i));
  }

  lemma SimulatePull(t: Template, c: Cpu, i: Insn)
    requires t.TPull?
    requires DefOk(i.def) && Compiles(t, i.opcode, i.def)
    ensures RunTemplate(t, c, i, c.regs.pc) == Retire(c, i)
  {
    hide UpdateZN, SetZN, Load, Unpack, Pack, RunInner, RunRead, RunModify, RunJump, RunPush, LoadOperand,
      HostAddress, DataRead, DataWrite, EmulRead, EmulModify, EmulPut, EmulFlag, EmulMove, EmulPush, EmulJmp,
      IrqEntry;
    var sp := (c.regs.sp + 1) % 256;
    var v := Load(c.mem, 0x100 + sp);
    UpdateZNIsAdjust(Set(c.regs.(sp := sp), t.reg, v), v);
  }

  lemma SimulatePush(t: Template, c: Cpu, i: Insn)
    requires t.TPush?
    requires DefOk(i.def) && Compiles(t, i.opcode, i.def)
    ensures RunTemplate(t, c, i, c.regs.pc) == Retire(c, i)
  {
    hide Pack, Or;
    PhpAgrees(c.regs.p);
  }

  lemma SimulateStore(t: Template, c: Cpu, i: Insn)
    requires t.TStore?
    requires DefOk(i.def) && Compiles(t, i.opcode, i.def)
    ensures RunTemplate(t, c, i, c.regs.pc) == Retire(c, i)
  {
    hide HostAddress, DataAddress, Pack;
    AddressAgrees(c, i);
  }

  lemma SimulateBranch(t: Template, c: Cpu, i: Insn)
    requires t.TBranchOnBit? || t.TBranchAlways? || t.TJump? || t.TJumpIndirect?
    requires DefOk(i.def) && Compiles(t, i.opcode, i.def)
    ensures Emul(c, i) == RunJump(t, c, i, c.regs.pc) && i.def.modifyPc
  {
    hide Load, And, BitMask, Signed, OpcodeBit, EmulRead, EmulModify, EmulPut, EmulFlag, EmulMove, EmulPush,
      EmulPull, IrqEntry, FromStack;
  }

  lemma SimulateCondBranch(t: Template, c: Cpu, i: Insn)
    requires t.TBranchIf? && DefOk(i.def) && Compiles(t, i.opcode, i.def)
    ensures Emul(c, i) == RunJump(t, c, i, c.regs.pc) && i.def.modifyPc
    ensures i.def.op.CondBranch? && Branches(t, c.regs.p) == Taken(i.def.op.cond, c.regs.p)
  {
    hide Signed;
  }

  lemma SimulateCall(c: Cpu, i: Insn)
    requires DefOk(i.def) && Compiles(TCall, i.opcode, i.def)
    ensures Emul(c, i) == RunJump(TCall, c, i, c.regs.pc) && i.def.modifyPc
  {
    hide Load;
  }

  lemma SimulateReturn(c: Cpu, i: Insn)
    requires DefOk(i.def) && Compiles(TReturn, i.opcode, i.def)
    ensures Retire(c, i) == RunJump(TReturn, c, i, c.regs.pc)
  {
    hide Load, DataRead, DataWrite, EmulRead, EmulModify, EmulPut, EmulFlag, EmulMove, EmulPush, EmulPull,
      EmulJmp, IrqEntry, FromStack;
  }

  /** Emitted code does to the machine exactly what the interpreter does for the
      same instruction: registers, flags, stores in order, PC. */
  lemma NativeIsInterpreted(c: Cpu, i: Insn)
    requires i.def == Def(i.opcode) && !Emit(i.opcode).TFallback?
    ensures RunTemplate(Emit(i.opcode), c, i, c.regs.pc) == Retire(c, i)
  {
    var t := Emit(i.opcode);
    SwitchAgrees(i.opcode);
    hide Def, Emit, Emul, RunInner, RunRead, RunJump, LoadOperand, DefOk, RunModify, RunPush, RunPull,
      HostAddress, MeantMode;
    if t.TShiftA? {
      ShiftAAgrees(t, c, i);
    } else if IsInner(t) {
      InnerAgrees(t, c, i);
    } else if IsRead(t) {
      SimulateRead(t, c, i);
    } else if IsModify(t) {
      SimulateModify(t, c, i);
    } else {
      match t
      case TPull(_) => SimulatePull(t, c, i);
      case TPush(_) => SimulatePush(t, c, i);
      case TStore(_) => SimulateStore(t, c, i);
      case TBranchOnBit | TBranchAlways | TJump | TJumpIndirect => SimulateBranch(t, c, i);
      case TBranchIf(_, _) => SimulateCondBranch(t, c, i);
      case TCall => SimulateCall(c, i);
      case TReturn => SimulateReturn(c, i);
    }
  }
}
