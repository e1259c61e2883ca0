/** Single steps read off the bytes of memory: what the interpreter does with an
    opcode, in terms of registers, bits and addresses. */
module Instructions {
  import opened Machine
  import opened Bits
  import opened Isa
  import opened Alu
  import opened Interpreter
  import opened BlockRun

  /** The bytes of the instruction at PC. */
  function ByteAt(c: Cpu, k: nat): byte {
    Load(c.mem, (c.regs.pc + k) % 0x1_0000)
  }

  function Past(c: Cpu, n: int): word {
    (c.regs.pc + n) % 0x1_0000
  }

  /** The step of an instruction without stores, and its operands. */
  lemma StepEffect(c: Cpu, d: InstrDef)
    requires !TakesIrq(c) && d == Def(ByteAt(c, 0))
    ensures var e := Retire(c, Fetch(c.mem, c.regs.pc));
            e.writes == [] ==> Exec(c) == Cpu(e.regs, c.mem, e.irq, e.run) && ExecWrites(c) == []
    ensures var i := Fetch(c.mem, c.regs.pc);
            && i.def == d && (Operands(d.mode) >= 1 ==> i.op1 == ByteAt(c, 1)) && (Operands(d.mode) >= 2 ==> i.op2 == ByteAt(c, 2))
  {
    hide Def, Retire, Load;
    ExecIsRetire(c);
    StoreNone(c.mem);
  }

  // ----------------------------------------------------------------- control

  lemma ControlRows()
    ensures Def(0x00) == InstrDef(Implied, 2, BRK, true)
    ensures Def(0x7C) == InstrDef(IndAbsoluteX, 3, JMP, true)
    ensures Def(0xCB) == InstrDef(Implied, 1, WAI, false)
    ensures Def(0xDB) == InstrDef(Implied, 1, STP, false)
  {}

  /** JMP (a,X): the target is the word at the operand plus X. */
  lemma JumpIndexed(c: Cpu)
    requires !TakesIrq(c) && ByteAt(c, 0) == 0x7C
    ensures var p := (ByteAt(c, 1) + 256 * ByteAt(c, 2) + c.regs.x) % 0x1_0000;
            Exec(c) == c.(regs := c.regs.(pc := Load(c.mem, p) + 256 * Load(c.mem, (p + 1) % 0x1_0000)))
  {
    hide Def, Load, Exec, ExecWrites, Fetch, StoreAll;
    ControlRows();
    var d := Def(0x7C);
    StepEffect(c, d);
  }

  /** WAI stops the processor just after itself, to be woken by the line. */
  lemma WaitSleeps(c: Cpu)
    requires !TakesIrq(c) && ByteAt(c, 0) == 0xCB
    ensures Exec(c) == c.(regs := c.regs.(pc := Past(c, 1)), run := Stopped(StopWai))
  {
    hide Def, Load, Exec, ExecWrites, Fetch, StoreAll;
    ControlRows();
    var d := Def(0xCB);
    StepEffect(c, d);
  }

  /** STP stops it for good. */
  lemma StopHalts(c: Cpu)
    requires !TakesIrq(c) && ByteAt(c, 0) == 0xDB
    ensures Exec(c) == c.(regs := c.regs.(pc := Past(c, 1)), run := Stopped(StopStp))
  {
    hide Def, Load, Exec, ExecWrites, Fetch, StoreAll;
    ControlRows();
    var d := Def(0xDB);
    StepEffect(c, d);
  }

  /** The three stores of interrupt entry. */
  function Saved(c: Cpu, pc: word, p: Flags): seq<Write> {
    var sp := c.regs.sp;
    [Write(0x100 + sp, pc / 256), Write(0x100 + (sp - 1) % 256, pc % 256), Write(0x100 + (sp - 2) % 256, Pack(p))]
  }

  /** The machine in the handler: PC is the word at $FFFE after the pushes, I is
      set, D and B are clear, and the line is down. */
  function InHandler(c: Cpu, pc: word, p: Flags): Cpu {
    var m := StoreAll(c.mem, Saved(c, pc, p));
    Cpu(c.regs.(pc := Load(m, 0xFFFE) + 256 * Load(m, 0xFFFF), sp := (c.regs.sp - 3) % 256,
                p := p.(i := true, d := false, b := false)),
        m, false, c.run)
  }

  /** A due interrupt saves PC and P as they are before the handler's first
      instruction runs. */
  lemma InterruptEnters(c: Cpu)
    requires c.irq && !c.regs.p.i
    ensures AfterIrq(c) == InHandler(c, c.regs.pc, c.regs.p) && Exec(c) == Exec(AfterIrq(c))
  {
    hide Load, StoreAll, Retire, Fetch;
  }

  /** BRK saves the address two bytes on, and P with B set. */
  lemma BreakSaves(c: Cpu)
    requires !TakesIrq(c) && ByteAt(c, 0) == 0x00
    ensures Exec(c) == InHandler(c, Past(c, 2), c.regs.p.(b := true))
  {
    hide Def, Load, Exec, ExecWrites, Fetch, StoreAll, Pack, DataRead, DataWrite, EmulRead, EmulModify, EmulMove, EmulPush,
      EmulPull, EmulJmp;
    ControlRows();
    var d := Def(0x00);
    ExecIsRetire(c);
    StepEffect(c, d);
  }

  // ------------------------------------------------------------------- flags

  lemma CondBranchRows(c: Cpu)
    requires ByteAt(c, 0) % 32 == 16
    ensures Def(ByteAt(c, 0)) == InstrDef(Relative, 2, CondBranch([BPL, BMI, BVC, BVS, BCC, BCS, BNE, BEQ][ByteAt(c, 0) / 32]), true)
  {
    hide RowOk, Load;
    var op := ByteAt(c, 0);
    assert op in {0x10, 0x30, 0x50, 0x70, 0x90, 0xB0, 0xD0, 0xF0};
  }

  /** The eight conditional branches: the upper two bits of the opcode pick N, V,
      C or Z, the third is the value on which it branches. */
  lemma BranchesOnFlag(c: Cpu)
    requires !TakesIrq(c) && ByteAt(c, 0) % 32 == 16
    ensures var flag := FlagAt(c.regs.p, [7, 6, 0, 1][ByteAt(c, 0) / 64]);
            var hit := flag == (ByteAt(c, 0) / 32 % 2 == 1);
            Exec(c) == c.(regs := c.regs.(pc := Past(c, 2 + if hit then Signed(ByteAt(c, 1)) else 0)))
  {
    hide Def, Load, Exec, ExecWrites, Fetch, StoreAll, Signed;
    CondBranchRows(c);
    StepEffect(c, Def(ByteAt(c, 0)));
  }

  lemma FlagRows()
    ensures Def(0x18) == InstrDef(Implied, 1, Flag(CLC), false) && Def(0x38) == InstrDef(Implied, 1, Flag(SEC), false)
    ensures Def(0x58) == InstrDef(Implied, 1, Flag(CLI), false) && Def(0x78) == InstrDef(Implied, 1, Flag(SEI), false)
    ensures Def(0xB8) == InstrDef(Implied, 1, Flag(CLV), false)
    ensures Def(0xD8) == InstrDef(Implied, 1, Flag(CLD), false) && Def(0xF8) == InstrDef(Implied, 1, Flag(SED), false)
  {
    hide RowOk;
  }

  /** The flag instructions set or clear the one bit they name. */
  lemma ChangesFlag(c: Cpu, bit: nat, on: bool, k: nat)
    requires !TakesIrq(c) && k < 8
    requires (ByteAt(c, 0), bit, on) in {(0x18, 0, false), (0x38, 0, true), (0x58, 2, false), (0x78, 2, true),
                                         (0xB8, 6, false), (0xD8, 3, false), (0xF8, 3, true)}
    ensures FlagAt(Exec(c).regs.p, k) == if k == bit then on else FlagAt(c.regs.p, k)
    ensures Exec(c) == c.(regs := c.regs.(pc := Past(c, 1), p := Exec(c).regs.p))
  {
    hide Def, Load, Exec, ExecWrites, Fetch, StoreAll;
    FlagRows();
    StepEffect(c, Def(ByteAt(c, 0)));
  }

  // -------------------------------------------------------------------- bits

  /** from_bcd by its mask. */
  lemma FromBcdMasks(x: byte)
    ensures FromBcd(x) == 10 * (x / 16) + And(0x0F, x)
  {
    LowNibble(x);
  }

  /** What ORA, AND and EOR make of one bit. */
  function LogicBit(op: ReadOp, p: nat, q: nat): int
    requires op in {ORA, AND, EOR}
  {
    match op
    case ORA => p + q - p * q
    case AND => p * q
    case EOR => p + q - 2 * (p * q)
  }

  lemma LogicBits(op: ReadOp, r: Regs, v: byte, k: nat)
    requires op in {ORA, AND, EOR} && k < 8
    ensures var r' := EmulRead(op, r, v, true);
            && BitOf(r'.a, k) == LogicBit(op, BitOf(r.a, k), BitOf(v, k))
            && r' == r.(a := r'.a, p := r.p.(z := r'.a == 0, n := r'.a >= 128))
  {
    hide And, Or, Xor, BitOf, Adc, Sbc;
    BitwiseBits(r.a, v, k);
  }

  lemma LogicRows()
    ensures Def(0x09) == InstrDef(Immediate, 2, Read(ORA), false)
    ensures Def(0x29) == InstrDef(Immediate, 2, Read(AND), false)
    ensures Def(0x49) == InstrDef(Immediate, 2, Read(EOR), false)
  {}

  /** ORA #m, AND #m and EOR #m, bit by bit, with Z and N of the result. */
  lemma LogicImmediate(c: Cpu, op: ReadOp, k: nat)
    requires !TakesIrq(c) && k < 8
    requires (op, ByteAt(c, 0)) in {(ORA, 0x09), (AND, 0x29), (EOR, 0x49)}
    ensures var a := Exec(c).regs.a;
            && BitOf(a, k) == LogicBit(op, BitOf(c.regs.a, k), BitOf(ByteAt(c, 1), k))
            && Exec(c) == c.(regs := c.regs.(a := a, pc := Past(c, 2), p := c.regs.p.(z := a == 0, n := a >= 128)))
  {
    hide Def, Load, Exec, ExecWrites, Fetch, StoreAll, EmulRead, BitOf, LogicBit;
    LogicRows();
    StepEffect(c, InstrDef(Immediate, 2, Read(op), false));
    LogicBits(op, c.regs, ByteAt(c, 1), k);
  }

  /** The rows of RMB, SMB, BBR and BBS, by the bit in their opcode. */
  lemma ChangeRows(k: nat)
    requires k < 8
    ensures Def(0x07 + 16 * k) == InstrDef(Zp, 2, Modify(RMB(k)), false)
    ensures Def(0x87 + 16 * k) == InstrDef(Zp, 2, Modify(SMB(k)), false)
  {
    hide RowOk;
  }

  lemma BranchRows(k: nat)
    requires k < 8
    ensures Def(0x0F + 16 * k) == InstrDef(ZpRel, 3, BitBranch(false, k), true)
    ensures Def(0x8F + 16 * k) == InstrDef(ZpRel, 3, BitBranch(true, k), true)
  {
    hide RowOk;
  }

  /** RMBk and SMBk write back the zero-page byte with bit `k` cleared or set and
      the other bits as they were; no flag changes. */
  lemma ChangesBit(c: Cpu, k: nat, j: nat, on: bool)
    requires !TakesIrq(c) && k < 8 && j < 8 && ByteAt(c, 0) == (if on then 0x87 else 0x07) + 16 * k
    ensures var ws := ExecWrites(c);
            && |ws| == 1 && ws[0].addr == ByteAt(c, 1)
            && BitOf(ws[0].val, j) == (if j == k then Weight(on, 1) else BitOf(Load(c.mem, ByteAt(c, 1)), j))
            && Exec(c) == c.(mem := StoreAll(c.mem, ws), regs := c.regs.(pc := Past(c, 2)))
  {
    hide Def, Load, Exec, ExecWrites, Fetch, StoreAll, And, Or, BitMask, BitOf;
    ChangeRows(k);
    ExecIsRetire(c);
    StepEffect(c, Def(ByteAt(c, 0)));
    SingleBit(Load(c.mem, ByteAt(c, 1)), k, j);
  }

  lemma MaskRows()
    ensures Def(0x04) == InstrDef(Zp, 2, Modify(TSB), false) && Def(0x14) == InstrDef(Zp, 2, Modify(TRB), false)
  {
    hide RowOk;
  }

  lemma MaskedBit(a: byte, v: byte, k: nat)
    requires k < 8
    ensures BitOf(Or(v, a), k) == if BitOf(a, k) == 1 then 1 else BitOf(v, k)
    ensures BitOf(And(v, Xor(a, 0xFF)), k) == if BitOf(a, k) == 1 then 0 else BitOf(v, k)
  {
    hide And, Or, Xor, BitOf;
    BitwiseBits(v, a, k);
    BitwiseBits(a, 0xFF, k);
    BitwiseBits(v, Xor(a, 0xFF), k);
    AllOnes(k);
    ZeroOrOne(a, k);
  }

  /** TSB and TRB set or clear in the zero-page byte the bits that are set in A,
      and set Z when none of those was set. */
  lemma ChangesMasked(c: Cpu, on: bool, k: nat)
    requires !TakesIrq(c) && k < 8 && ByteAt(c, 0) == if on then 0x04 else 0x14
    ensures var ws, v := ExecWrites(c), Load(c.mem, ByteAt(c, 1));
            && |ws| == 1 && ws[0].addr == ByteAt(c, 1)
            && BitOf(ws[0].val, k) == (if BitOf(c.regs.a, k) == 1 then Weight(on, 1) else BitOf(v, k))
            && Exec(c) == c.(mem := StoreAll(c.mem, ws), regs := c.regs.(pc := Past(c, 2), p := Exec(c).regs.p))
            && Exec(c).regs.p == c.regs.p.(z := And(c.regs.a, v) == 0)
  {
    hide Def, Load, Exec, ExecWrites, Fetch, StoreAll, And, Or, Xor, BitOf;
    MaskRows();
    ExecIsRetire(c);
    StepEffect(c, Def(ByteAt(c, 0)));
    MaskedBit(c.regs.a, Load(c.mem, ByteAt(c, 1)), k);
  }

  /** BBRk and BBSk branch on bit `k` of the zero-page byte. */
  lemma BranchesOnBit(c: Cpu, k: nat, on: bool)
    requires !TakesIrq(c) && k < 8 && ByteAt(c, 0) == (if on then 0x8F else 0x0F) + 16 * k
    ensures var hit := BitOf(Load(c.mem, ByteAt(c, 1)), k) == Weight(on, 1);
            Exec(c) == c.(regs := c.regs.(pc := Past(c, 3 + if hit then Signed(ByteAt(c, 2)) else 0)))
  {
    hide Def, Load, Exec, ExecWrites, Fetch, StoreAll, And, Or, BitMask, BitOf, Signed;
    BranchRows(k);
    StepEffect(c, Def(ByteAt(c, 0)));
    SingleBit(Load(c.mem, ByteAt(c, 1)), k, k);
    ZeroOrOne(Load(c.mem, ByteAt(c, 1)), k);
  }
}
