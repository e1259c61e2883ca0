/** The code the JIT emits for one instruction: which template jit_emit_insn
    picks for an opcode, and what the emitted code does when it runs. */
module Emitter {
  import opened Machine
  import opened Isa
  import opened Alu

  datatype Reg = RegA | RegX | RegY | RegSp | RegP | Zero
  datatype FlagName = FlagN | FlagV | FlagD | FlagI | FlagZ | FlagC
  datatype Logic = LAnd | LOr | LXor
  datatype Shift = Asl | Lsr | Rol | Ror

  /** One constructor per distinct piece of emitted code. */
  datatype Template =
    | TNop
    | TFlag(flag: FlagName, on: bool)
    | TMove(src: Reg, dst: Reg)
    | TBump(reg: Reg, up: bool)
    | TLoad(reg: Reg)
    | TStore(reg: Reg)
    | TLogic(logic: Logic)
    | TAdd
    | TSubtract
    | TCompare(reg: Reg)
    | TBumpMem(up: bool)
    | TShiftA(shift: Shift)
    | TShiftMem(shift: Shift)
    | TBitTest
    | TResetBit
    | TSetBit
    | TTestReset
    | TTestSet
    | TBranchOnBit
    | TPush(reg: Reg)
    | TPull(reg: Reg)
    | TBranchAlways
    | TBranchIf(flag: FlagName, on: bool)
    | TJump
    | TJumpIndirect
    | TCall
    | TReturn
    | TFallback

  function Emit0(l: nat): Template
    requires l < 16
  {
    match l
    case 0x1 => TLogic(LOr)
    case 0x4 => TTestSet
    case 0x5 => TLogic(LOr)
    case 0x6 => TShiftMem(Asl)
    case 0x7 => TResetBit
    case 0x8 => TPush(RegP)
    case 0x9 => TLogic(LOr)
    case 0xA => TShiftA(Asl)
    case 0xC => TTestSet
    case 0xD => TLogic(LOr)
    case 0xE => TShiftMem(Asl)
    case 0xF => TBranchOnBit
    case _ => TFallback
  }

  function Emit1(l: nat): Template
    requires l < 16
  {
    match l
    case 0x0 => TBranchIf(FlagN, false)
    case 0x1 => TLogic(LOr)
    case 0x2 => TLogic(LOr)
    case 0x4 => TTestReset
    case 0x5 => TLogic(LOr)
    case 0x6 => TShiftMem(Asl)
    case 0x7 => TResetBit
    case 0x8 => TFlag(FlagC, false)
    case 0x9 => TLogic(LOr)
    case 0xA => TBump(RegA, true)
    case 0xC => TTestReset
    case 0xD => TLogic(LOr)
    case 0xE => TShiftMem(Asl)
    case 0xF => TBranchOnBit
    case _ => TFallback
  }

  function Emit2(l: nat): Template
    requires l < 16
  {
    match l
    case 0x0 => TCall
    case 0x1 => TLogic(LAnd)
    case 0x4 => TBitTest
    case 0x5 => TLogic(LAnd)
    case 0x6 => TShiftMem(Rol)
    case 0x7 => TResetBit
    case 0x8 => TPull(RegP)
    case 0x9 => TLogic(LAnd)
    case 0xA => TShiftA(Rol)
    case 0xC => TBitTest
    case 0xD => TLogic(LAnd)
    case 0xE => TShiftMem(Rol)
    case 0xF => TBranchOnBit
    case _ => TFallback
  }

  function Emit3(l: nat): Template
    requires l < 16
  {
    match l
    case 0x0 => TBranchIf(FlagN, true)
    case 0x1 => TLogic(LAnd)
    case 0x2 => TLogic(LAnd)
    case 0x4 => TBitTest
    case 0x5 => TLogic(LAnd)
    case 0x6 => TShiftMem(Rol)
    case 0x7 => TResetBit
    case 0x8 => TFlag(FlagC, true)
    case 0x9 => TLogic(LAnd)
    case 0xA => TBump(RegA, false)
    case 0xC => TBitTest
    case 0xD => TLogic(LAnd)
    case 0xE => TShiftMem(Rol)
    case 0xF => TBranchOnBit
    case _ => TFallback
  }

  function Emit4(l: nat): Template
    requires l < 16
  {
    match l
    case 0x1 => TLogic(LXor)
    case 0x5 => TLogic(LXor)
    case 0x6 => TShiftMem(Lsr)
    case 0x7 => TResetBit
    case 0x8 => TPush(RegA)
    case 0x9 => TLogic(LXor)
    case 0xA => TShiftA(Lsr)
    case 0xC => TJump
    case 0xD => TLogic(LXor)
    case 0xE => TShiftMem(Lsr)
    case 0xF => TBranchOnBit
    case _ => TFallback
  }

  function Emit5(l: nat): Template
    requires l < 16
  {
    match l
    case 0x0 => TBranchIf(FlagV, false)
    case 0x1 => TLogic(LXor)
    case 0x2 => TLogic(LXor)
    case 0x5 => TLogic(LXor)
    case 0x6 => TShiftMem(Lsr)
    case 0x7 => TResetBit
    case 0x8 => TFlag(FlagI, false)
    case 0x9 => TLogic(LXor)
    case 0xA => TPush(RegY)
    case 0xD => TLogic(LXor)
    case 0xE => TShiftMem(Lsr)
    case 0xF => TBranchOnBit
    case _ => TFallback
  }

  function Emit6(l: nat): Template
    requires l < 16
  {
    match l
    case 0x0 => TReturn
    case 0x1 => TAdd
    case 0x4 => TStore(Zero)
    case 0x5 => TAdd
    case 0x6 => TShiftMem(Ror)
    case 0x7 => TResetBit
    case 0x8 => TPull(RegA)
    case 0x9 => TAdd
    case 0xA => TShiftA(Ror)
    case 0xC => TJumpIndirect
    case 0xD => TAdd
    case 0xE => TShiftMem(Ror)
    case 0xF => TBranchOnBit
    case _ => TFallback
  }

  function Emit7(l: nat): Template
    requires l < 16
  {
    match l
    case 0x0 => TBranchIf(FlagV, true)
    case 0x1 => TAdd
    case 0x2 => TAdd
    case 0x4 => TStore(Zero)
    case 0x5 => TAdd
    case 0x6 => TShiftMem(Ror)
    case 0x7 => TResetBit
    case 0x8 => TFlag(FlagI, true)
    case 0x9 => TAdd
    case 0xA => TPull(RegY)
    case 0xD => TAdd
    case 0xE => TShiftMem(Ror)
    case 0xF => TBranchOnBit
    case _ => TFallback
  }

  function Emit8(l: nat): Template
    requires l < 16
  {
    match l
    case 0x0 => TBranchAlways
    case 0x1 => TStore(RegA)
    case 0x4 => TStore(RegY)
    case 0x5 => TStore(RegA)
    case 0x6 => TStore(RegX)
    case 0x7 => TSetBit
    case 0x8 => TBump(RegY, false)
    case 0x9 => TBitTest
    case 0xA => TMove(RegX, RegA)
    case 0xC => TStore(RegY)
    case 0xD => TStore(RegA)
    case 0xE => TStore(RegX)
    case 0xF => TBranchOnBit
    case _ => TFallback
  }

  function Emit9(l: nat): Template
    requires l < 16
  {
    match l
    case 0x0 => TBranchIf(FlagC, false)
    case 0x1 => TStore(RegA)
    case 0x2 => TStore(RegA)
    case 0x4 => TStore(RegY)
    case 0x5 => TStore(RegA)
    case 0x6 => TStore(RegX)
    case 0x7 => TSetBit
    case 0x8 => TMove(RegY, RegA)
    case 0x9 => TStore(RegA)
    case 0xA => TMove(RegX, RegSp)
    case 0xC => TStore(Zero)
    case 0xD => TStore(RegA)
    case 0xE => TStore(Zero)
    case 0xF => TBranchOnBit
    case _ => TFallback
  }

  function EmitA(l: nat): Template
    requires l < 16
  {
    match l
    case 0x0 => TLoad(RegY)
    case 0x1 => TLoad(RegA)
    case 0x2 => TLoad(RegX)
    case 0x4 => TLoad(RegY)
    case 0x5 => TLoad(RegA)
    case 0x6 => TLoad(RegX)
    case 0x7 => TSetBit
    case 0x8 => TMove(RegA, RegY)
    case 0x9 => TLoad(RegA)
    case 0xA => TMove(RegA, RegX)
    case 0xC => TLoad(RegY)
    case 0xD => TLoad(RegA)
    case 0xE => TLoad(RegX)
    case 0xF => TBranchOnBit
    case _ => TFallback
  }

  function EmitB(l: nat): Template
    requires l < 16
  {
    match l
    case 0x0 => TBranchIf(FlagC, true)
    case 0x1 => TLoad(RegA)
    case 0x2 => TLoad(RegA)
    case 0x4 => TLoad(RegY)
    case 0x5 => TLoad(RegA)
    case 0x6 => TLoad(RegX)
    case 0x7 => TSetBit
    case 0x8 => TFlag(FlagV, false)
    case 0x9 => TLoad(RegA)
    case 0xA => TMove(RegSp, RegX)
    case 0xC => TLoad(RegY)
    case 0xD => TLoad(RegA)
    case 0xE => TLoad(RegX)
    case 0xF => TBranchOnBit
    case _ => TFallback
  }

  function EmitC(l: nat): Template
    requires l < 16
  {
    match l
    case 0x0 => TCompare(RegY)
    case 0x1 => TCompare(RegA)
    case 0x4 => TCompare(RegY)
    case 0x5 => TCompare(RegA)
    case 0x6 => TBumpMem(false)
    case 0x7 => TSetBit
    case 0x8 => TBump(RegY, true)
    case 0x9 => TCompare(RegA)
    case 0xA => TBump(RegX, false)
    case 0xC => TCompare(RegY)
    case 0xD => TCompare(RegA)
    case 0xE => TBumpMem(false)
    case 0xF => TBranchOnBit
    case _ => TFallback
  }

  function EmitD(l: nat): Template
    requires l < 16
  {
    match l
    case 0x0 => TBranchIf(FlagZ, false)
    case 0x1 => TCompare(RegA)
    case 0x2 => TCompare(RegA)
    case 0x5 => TCompare(RegA)
    case 0x6 => TBumpMem(false)
    case 0x7 => TSetBit
    case 0x8 => TFlag(FlagD, false)
    case 0x9 => TCompare(RegA)
    case 0xA => TPush(RegX)
    case 0xD => TCompare(RegA)
    case 0xE => TBumpMem(false)
    case 0xF => TBranchOnBit
    case _ => TFallback
  }

  function EmitE(l: nat): Template
    requires l < 16
  {
    match l
    case 0x0 => TCompare(RegX)
    case 0x1 => TSubtract
    case 0x4 => TCompare(RegX)
    case 0x5 => TSubtract
    case 0x6 => TBumpMem(true)
    case 0x7 => TSetBit
    case 0x8 => TBump(RegX, true)
    case 0x9 => TSubtract
    case 0xA => TNop
    case 0xC => TCompare(RegX)
    case 0xD => TSubtract
    case 0xE => TBumpMem(true)
    case 0xF => TBranchOnBit
    case _ => TFallback
  }

  function EmitF(l: nat): Template
    requires l < 16
  {
    match l
    case 0x0 => TBranchIf(FlagZ, true)
    case 0x1 => TSubtract
    case 0x2 => TSubtract
    case 0x5 => TSubtract
    case 0x6 => TBumpMem(true)
    case 0x7 => TSetBit
    case 0x8 => TFlag(FlagD, true)
    case 0x9 => TSubtract
    case 0xA => TPull(RegX)
    case 0xD => TSubtract
    case 0xE => TBumpMem(true)
    case 0xF => TBranchOnBit
    case _ => TFallback
  }

  /** The switch of jit_emit_insn. */
  function Emit(opcode: byte): Template {
    var l := opcode % 16;
    match opcode / 16
    case 0x0 => Emit0(l) case 0x1 => Emit1(l) case 0x2 => Emit2(l) case 0x3 => Emit3(l)
    case 0x4 => Emit4(l) case 0x5 => Emit5(l) case 0x6 => Emit6(l) case 0x7 => Emit7(l)
    case 0x8 => Emit8(l) case 0x9 => Emit9(l) case 0xA => EmitA(l) case 0xB => EmitB(l)
    case 0xC => EmitC(l) case 0xD => EmitD(l) case 0xE => EmitE(l) case 0xF => EmitF(l)
  }

  // -------------------------------------------------- registers and memory

  function Get(r: Regs, reg: Reg): byte {
    match reg
    case RegA => r.a
    case RegX => r.x
    case RegY => r.y
    case RegSp => r.sp
    case RegP => Pack(r.p)
    case Zero => 0
  }

  function Set(r: Regs, reg: Reg, v: byte): Regs {
    match reg
    case RegA => r.(a := v)
    case RegX => r.(x := v)
    case RegY => r.(y := v)
    case RegSp => r.(sp := v)
    case RegP => r.(p := Unpack(v))
    case Zero => r
  }

  predicate GetFlag(p: Flags, f: FlagName) {
    match f
    case FlagN => p.n
    case FlagV => p.v
    case FlagD => p.d
    case FlagI => p.i
    case FlagZ => p.z
    case FlagC => p.c
  }

  function SetFlag(p: Flags, f: FlagName, on: bool): Flags {
    match f
    case FlagN => p.(n := on)
    case FlagV => p.(v := on)
    case FlagD => p.(d := on)
    case FlagI => p.(i := on)
    case FlagZ => p.(z := on)
    case FlagC => p.(c := on)
  }

  /** jit_emit_bus_read: the callee takes a uint16_t. */
  function BusRead(m: Memory, addr: nat): byte {
    Load(m, addr % 0x1_0000)
  }

  /** jit_emit_bus_write. */
  function BusWrite(addr: nat, v: byte): Write {
    Write(addr % 0x1_0000, v)
  }

  /** jit_emit_effaddr: the address left in a host register, not masked to 16
      bits for the indexed modes. */
  function HostAddress(c: Cpu, i: Insn): nat {
    var abs := i.op1 + 256 * i.op2;
    var x: nat, y: nat := c.regs.x, c.regs.y;
    match i.def.mode
    case Zp => i.op1
    case ZpX => (x + i.op1) % 256
    case ZpY => (y + i.op1) % 256
    case Absolute => abs
    case AbsoluteX => x + abs
    case AbsoluteY => y + abs
    case IndZp => BusRead(c.mem, i.op1) + 256 * BusRead(c.mem, (i.op1 + 1) % 256)
    case IndZpX => BusRead(c.mem, (x + i.op1) % 256) + 256 * BusRead(c.mem, (x + (i.op1 + 1)) % 256)
    case IndZpY => BusRead(c.mem, i.op1) + 256 * BusRead(c.mem, (i.op1 + 1) % 256) + y
    case _ => 0
  }

  /** jit_emit_load_operand. */
  function LoadOperand(c: Cpu, i: Insn): byte {
    if i.def.mode == Immediate then i.op1 else BusRead(c.mem, HostAddress(c, i))
  }

  // -------------------------------------------------------- emitted pieces

  /** jit_emit_update_zn. */
  function UpdateZN(r: Regs, v: byte): Regs {
    var cleared := r.p.(z := false, n := false);
    var p := if v == 0 then cleared.(z := true) else cleared;
    r.(p := if And(v, 0x80) != 0 then p.(n := true) else p)
  }

  /** jit_emit_advance_pc. */
  function AdvancePc(r: Regs, size: int): Regs {
    r.(pc := (r.pc + size) % 0x1_0000)
  }

  /** The binary ADC sequence: the carry is bit 8 of the host sum, V comes from
      the masked result. */
  function EmittedAdd(a: byte, m: byte, p: Flags): Sum {
    var sum: nat := a + m + (if p.c then 1 else 0);
    var carryOut := sum / 256 % 2 == 1;
    var res := sum % 256;
    var overflow := And(And(Xor(a, res), Xor(m, res)), 0x80) != 0;
    var r := UpdateZN(Regs(res, 0, 0, 0, 0, p.(c := carryOut, v := overflow)), res);
    Sum(res, r.p)
  }

  /** The binary SBC sequence: add the complement. */
  function EmittedSubtract(a: byte, m: byte, p: Flags): Sum {
    EmittedAdd(a, Xor(m, 0xFF), p)
  }

  /** The CMP/CPX/CPY sequence: all three flags are cleared, then set. */
  function EmittedCompare(p: Flags, x: byte, m: byte): Flags {
    var p1 := p.(c := false, z := false, n := false);
    var p2 := if x < m then p1 else p1.(c := true);
    var diff := (x - m) % 256;
    var p3 := if diff != 0 then p2 else p2.(z := true);
    if And(diff, 0x80) == 0 then p3 else p3.(n := true)
  }

  /** The BIT sequence, after one read. */
  function EmittedBit(p: Flags, a: byte, m: byte, immediate: bool): Flags {
    var p1 := if immediate then p.(z := false) else p.(z := false, n := false, v := false);
    var p2 := if And(a, m) != 0 then p1 else p1.(z := true);
    if immediate then p2
    else
      var p3 := if And(m, 0x80) == 0 then p2 else p2.(n := true);
      if And(m, 0x40) == 0 then p3 else p3.(v := true)
  }

  /** A shift or rotate: the new C, and the shifted byte. */
  function EmittedShift(k: Shift, v: byte, c: bool): (bool, byte) {
    match k
    case Asl => (And(v, 0x80) != 0, 2 * v % 256)
    case Lsr => (And(v, 0x01) != 0, v / 2)
    case Rol => (And(v, 0x80) != 0, (2 * v + (if c then 1 else 0)) % 256)
    case Ror => (And(v, 0x01) != 0, v / 2 + (if c then 128 else 0))
  }

  function BumpByte(v: byte, up: bool): byte {
    if up then (v + 1) % 256 else (v - 1) % 256
  }

  function Logical(k: Logic, a: byte, m: byte): byte {
    match k
    case LAnd => And(a, m)
    case LOr => Or(a, m)
    case LXor => Xor(a, m)
  }

  /** The bit number the RMB/SMB/BBR/BBS templates take from the opcode. */
  function OpcodeBit(opcode: byte): bit {
    opcode / 16 % 8
  }

  // -------------------------------------------------- running one template

  function Quiet(c: Cpu, r: Regs): Effect {
    Effect(r, [], c.irq, c.run)
  }

  predicate IsInner(t: Template) {
    t.TNop? || t.TFlag? || t.TMove? || t.TBump? || t.TShiftA?
  }

  predicate IsRead(t: Template) {
    t.TLoad? || t.TLogic? || t.TAdd? || t.TSubtract? || t.TCompare? || t.TBitTest?
  }

  predicate IsModify(t: Template) {
    t.TBumpMem? || t.TShiftMem? || t.TResetBit? || t.TSetBit? || t.TTestReset? || t.TTestSet?
  }

  predicate IsJump(t: Template) {
    t.TBranchOnBit? || t.TBranchAlways? || t.TBranchIf? || t.TJump? || t.TJumpIndirect? || t.TCall? || t.TReturn?
  }

  /** Emitted code that ends with the "JIT disabled" bail-out check. */
  predicate ChecksBail(t: Template) {
    t.TStore? || IsModify(t) || t.TPush? || t.TCall?
  }

  /** Templates that touch registers only. */
  function RunInner(t: Template, r: Regs): Regs
    requires IsInner(t)
  {
    match t
    case TNop => r
    case TFlag(f, on) => r.(p := SetFlag(r.p, f, on))
    case TMove(src, dst) =>
      var v := Get(r, src);
      if dst == RegSp then Set(r, dst, v) else UpdateZN(Set(r, dst, v), v)
    case TBump(reg, up) => var v := BumpByte(Get(r, reg), up); UpdateZN(Set(r, reg, v), v)
    case TShiftA(k) =>
      var s := EmittedShift(k, r.a, r.p.c);
      UpdateZN(r.(a := s.1, p := r.p.(c := s.0)), s.1)
  }

  /** Templates that loaded an operand `m`. ADC and SBC call the decimal helpers
      when P.D is set. */
  function RunRead(t: Template, r: Regs, m: byte, immediate: bool): Regs
    requires IsRead(t)
  {
    match t
    case TLoad(reg) => UpdateZN(Set(r, reg, m), m)
    case TLogic(k) => var v := Logical(k, r.a, m); UpdateZN(r.(a := v), v)
    case TAdd =>
      var s := if r.p.d then AdcDecimal(r.a, m, r.p) else EmittedAdd(r.a, m, r.p);
      r.(a := s.a, p := s.p)
    case TSubtract =>
      var s := if r.p.d then SbcDecimal(r.a, m, r.p) else EmittedSubtract(r.a, m, r.p);
      r.(a := s.a, p := s.p)
    case TCompare(reg) => r.(p := EmittedCompare(r.p, Get(r, reg), m))
    case TBitTest => r.(p := EmittedBit(r.p, r.a, m, immediate))
  }

  /** Read-modify-write templates: the registers and the byte written back. */
  function RunModify(t: Template, r: Regs, m: byte, opcode: byte): (Regs, byte)
    requires IsModify(t)
  {
    match t
    case TBumpMem(up) => var v := BumpByte(m, up); (UpdateZN(r, v), v)
    case TShiftMem(k) =>
      var s := EmittedShift(k, m, r.p.c);
      (UpdateZN(r.(p := r.p.(c := s.0)), s.1), s.1)
    case TResetBit => (r, And(m, 255 - BitMask(OpcodeBit(opcode))))
    case TSetBit => (r, Or(m, BitMask(OpcodeBit(opcode))))
    case TTestReset => (r.(p := r.p.(z := And(r.a, m) == 0)), And(m, Xor(r.a, 0xFF)))
    case TTestSet => (r.(p := r.p.(z := And(r.a, m) == 0)), Or(m, r.a))
  }

  function RunPush(reg: Reg, c: Cpu, i: Insn): Effect {
    var r := c.regs;
    var v := if reg == RegP then Or(Get(r, RegP), 0x30) else Get(r, reg);
    Effect(AdvancePc(r.(sp := (r.sp - 1) % 256), i.def.size), [BusWrite(0x100 + r.sp, v)], c.irq, c.run)
  }

  function RunPull(reg: Reg, c: Cpu): Regs {
    var sp := (c.regs.sp + 1) % 256;
    var v := BusRead(c.mem, 0x100 + sp);
    if reg == RegP then c.regs.(sp := sp, p := Unpack(v).(u := true, b := false))
    else UpdateZN(Set(c.regs.(sp := sp), reg, v), v)
  }

  /** Where a conditional branch at the compile-time address `at` goes. */
  function BranchTarget(at: word, i: Insn): word {
    (at + i.def.size + Signed(i.op1)) % 0x1_0000
  }

  /** Whether emitted conditional branch code takes the branch. */
  predicate Branches(t: Template, p: Flags) {
    t.TBranchIf? && GetFlag(p, t.flag) == t.on
  }

  /** Templates that set PC. */
  function RunJump(t: Template, c: Cpu, i: Insn, at: word): Effect
    requires IsJump(t)
  {
    var r := c.regs;
    var abs := i.op1 + 256 * i.op2;
    match t
    case TBranchOnBit =>
      var hit := (And(BusRead(c.mem, i.op1), BitMask(OpcodeBit(i.opcode))) != 0) == (i.opcode >= 0x80);
      Quiet(c, AdvancePc(r, i.def.size + (if hit then Signed(i.op2) else 0)))
    case TBranchAlways => Quiet(c, AdvancePc(r, i.def.size + Signed(i.op1)))
    case TBranchIf(_, _) =>
      Quiet(c, if Branches(t, r.p) then r.(pc := BranchTarget(at, i)) else AdvancePc(r, i.def.size))
    case TJump => Quiet(c, r.(pc := abs))
    case TJumpIndirect =>
      Quiet(c, r.(pc := BusRead(c.mem, abs) + 256 * BusRead(c.mem, (abs + 1) % 0x1_0000)))
    case TCall =>
      var ret := (r.pc + 2) % 0x1_0000;
      var sp1 := (r.sp - 1) % 256;
      Effect(r.(pc := abs, sp := (sp1 - 1) % 256),
             [BusWrite(0x100 + r.sp, ret / 256), BusWrite(0x100 + sp1, ret % 256)], c.irq, c.run)
    case TReturn =>
      var sp1 := (r.sp + 1) % 256;
      var sp2 := (sp1 + 1) % 256;
      Quiet(c, r.(sp := sp2, pc := (BusRead(c.mem, 0x100 + sp1) + 256 * BusRead(c.mem, 0x100 + sp2) + 1) % 0x1_0000))
  }

  /** The emitted code of a template, run at the compile-time address `at`. */
  function RunTemplate(t: Template, c: Cpu, i: Insn, at: word): Effect
    requires !t.TFallback?
  {
    var size := i.def.size;
    if IsInner(t) then Quiet(c, AdvancePc(RunInner(t, c.regs), size))
    else if IsRead(t) then Quiet(c, AdvancePc(RunRead(t, c.regs, LoadOperand(c, i), i.def.mode == Immediate), size))
    else if IsModify(t) then
      var addr := HostAddress(c, i);
      var s := RunModify(t, c.regs, BusRead(c.mem, addr), i.opcode);
      Effect(AdvancePc(s.0, size), [BusWrite(addr, s.1)], c.irq, c.run)
    else if IsJump(t) then RunJump(t, c, i, at)
    else match t
      case TStore(reg) =>
        Effect(AdvancePc(c.regs, size), [BusWrite(HostAddress(c, i), Get(c.regs, reg))], c.irq, c.run)
      case TPush(reg) => RunPush(reg, c, i)
      case TPull(reg) => Quiet(c, AdvancePc(RunPull(reg, c), size))
  }
}
