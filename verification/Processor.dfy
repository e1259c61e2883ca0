/** The interpreter as the source runs it: registers, flags and memory updated
    in place, proved against the effects of module Interpreter. */
module Processors {
  import opened Machine
  import opened Isa
  import opened Alu
  import opened Interpreter
  import opened Simulation
  import opened Stack
  import opened BlockRun

  // ---------------------------------------------------------- bit identities

  /** Shifting in the old carry by OR is adding it. */
  lemma ShiftInLow(x: byte)
    requires x % 2 == 0
    ensures Or(x, 0x01) == x + 1 && And(x, 0xFE) == x
  {
    hide Unpack, Nibble;
    var f := Unpack(x);
    LowBit(x);
    OneBits();
    Masks();
    PackUnpack(x);
    PackLow(f);
    assert Either(f, Unpack(0x01)) == f.(c := true) && Both(f, Unpack(0xFE)) == f;
  }

  lemma ShiftInHigh(x: byte)
    requires x < 128
    ensures Or(x, 0x80) == x + 128 && And(x, 0x7F) == x
  {
    hide Unpack, Nibble;
    var f := Unpack(x);
    SignBit(x);
    OneBits();
    Masks();
    PackUnpack(x);
    PackHigh(f);
    assert Either(f, Unpack(0x80)) == f.(n := true) && Both(f, Unpack(0x7F)) == f;
  }

  lemma PackLow(f: Flags)
    ensures !f.c ==> Pack(f.(c := true)) == Pack(f) + 1
  {}

  lemma PackHigh(f: Flags)
    ensures !f.n ==> Pack(f.(n := true)) == Pack(f) + 128
  {}

  lemma Masks()
    ensures Unpack(0xFE) == Flags(true, true, true, true, true, true, true, false)
    ensures Unpack(0x7F) == Flags(false, true, true, true, true, true, true, true)
    ensures Unpack(0x20) == Flags(false, false, true, false, false, false, false, false)
    ensures Unpack(0xEF) == Flags(true, true, true, false, true, true, true, true)
  {}

  /** PLP and RTI set bit 5 and clear B whatever was on the stack. */
  lemma PulledStatus(x: byte)
    ensures Unpack(And(Or(x, 0x20), 0xEF)) == FromStack(x)
  {
    hide Pack, Unpack;
    Masks();
    UnpackPack(Either(Unpack(x), Unpack(0x20)));
    UnpackPack(Both(Either(Unpack(x), Unpack(0x20)), Unpack(0xEF)));
  }

  class Processor {
    var a: byte
    var x: byte
    var y: byte
    var pc: word
    var sp: byte
    var p: Flags
    var mem: Memory
    var irq: bool
    var run: Run

    constructor (c: Cpu)
      ensures State() == c
    {
      a, x, y, pc, sp, p := c.regs.a, c.regs.x, c.regs.y, c.regs.pc, c.regs.sp, c.regs.p;
      mem, irq, run := c.mem, c.irq, c.run;
    }

    function State(): Cpu
      reads this
    {
      Cpu(Regs(a, x, y, pc, sp, p), mem, irq, run)
    }

    /** instruction_status_adjust_zero and instruction_status_adjust_negative. */
    method AdjustStatus(v: byte)
      modifies this`p
      ensures p == AdjustZN(old(p), v)
    {
      AndMask80(v);
      hide And;
      if v == 0 { p := p.(z := true); } else { p := p.(z := false); }
      if And(v, 0x80) != 0 { p := p.(n := true); } else { p := p.(n := false); }
    }

    /** stack_push. */
    method StackPush(val: byte)
      modifies this`mem, this`sp
      ensures State() == PushByte(old(State()), val)
    {
      mem := Store(mem, STACK_START + sp, val);
      sp := (sp - 1) % 256;
    }

    /** stack_pop. */
    method StackPop() returns (val: byte)
      modifies this`sp
      ensures (State(), val) == PopByte(old(State()))
    {
      sp := (sp + 1) % 256;
      val := Load(mem, STACK_START + sp);
    }

    method DataRead1(i: Insn) returns (val: byte)
      requires i.def.mode == Accumulator || i.def.mode == Immediate || HasAddress(i.def.mode)
      ensures val == DataRead(State(), i)
    {
      if i.def.mode == Accumulator {
        return a;
      } else if i.def.mode == Immediate {
        return i.op1;
      }
      val := Load(mem, DataAddress(State(), i));
    }

    method DataWrite1(i: Insn, val: byte)
      requires i.def.mode == Accumulator || HasAddress(i.def.mode)
      modifies this`a, this`mem
      ensures State() == Apply(old(State()), DataWrite(old(State()), i, old(State()).regs, val))
    {
      if i.def.mode == Accumulator {
        assert StoreAll(mem, []) == mem by { StoreNone(mem); }
        a := val;
        return;
      }
      StoreOne(mem, Write(DataAddress(State(), i), val));
      mem := Store(mem, DataAddress(State(), i), val);
    }

    /** rk65c02_irq. */
    method TakeIrq()
      modifies this
      ensures State() == Apply(old(State()), IrqEntry(old(State()), old(pc), old(p)))
      ensures pc == Load(mem, 0xFFFE) + 256 * Load(mem, 0xFFFF) && !irq
      ensures p == old(p).(i := true, d := false, b := false) && sp == (old(sp) - 3) % 256
    {
      hide Store, Load, Pack, PushSlot;
      ghost var c, xs := State(), [pc / 256, pc % 256, Pack(p)];
      StackPush(pc / 256);
      StackPush(pc % 256);
      StackPush(Pack(p));
      PushedThree(c, xs);
      p := p.(i := true);
      p := p.(d := false);
      p := p.(b := false);
      pc := Load(mem, VECTOR_IRQ) + 256 * Load(mem, VECTOR_IRQ + 1);
      irq := false;
    }

    /** emul_lda and the other routines that only read their operand. */
    method ReadRoutine(op: ReadOp, i: Insn)
      requires i.def.mode == Immediate || HasAddress(i.def.mode)
      modifies this`a, this`x, this`y, this`p
      ensures State() == old(State()).(regs := EmulRead(op, old(State()).regs, DataRead(old(State()), i), i.def.mode == Immediate))
    {
      hide DataRead, And, Or, Xor, Adc, Sbc, AdjustZN;
      var arg := DataRead1(i);
      match op {
        case ADC => { a, p := EmulAdc(a, arg, p); }
        case SBC => { a, p := EmulSbc(a, arg, p); }
        case AND => { a := And(a, arg); AdjustStatus(a); }
        case ORA => { a := Or(a, arg); AdjustStatus(a); }
        case EOR => { a := Xor(a, arg); AdjustStatus(a); }
        case LDA => { a := arg; AdjustStatus(a); }
        case LDX => { x := arg; AdjustStatus(x); }
        case LDY => { y := arg; AdjustStatus(y); }
        case CMP => { Compare(a, arg); }
        case CPX => { Compare(x, arg); }
        case CPY => { Compare(y, arg); }
        case BIT => { BitRoutine(arg, i.def.mode == Immediate); }
      }
    }

    /** emul_bit. */
    method BitRoutine(arg: byte, immediate: bool)
      modifies this`p
      ensures p == EmulRead(BIT, old(State()).regs, arg, immediate).p
    {
      hide And, Or, Xor, Adc, Sbc, AdjustZN;
      TestBits(arg);
      if !immediate {
        p := p.(v := And(arg, 0x40) != 0);
        p := p.(n := And(arg, 0x80) != 0);
      }
    }

    /** emul_cmp, emul_cpx, emul_cpy. */
    method Compare(reg: byte, val: byte)
      modifies this`p
      ensures p == AdjustZN(old(p), (reg - val) % 256).(c := reg >= val)
    {
      AdjustStatus((reg - val) % 256);
      if reg < val { p := p.(c := false); } else { p := p.(c := true); }
    }

    /** emul_asl and the other read-modify-write routines. */
    method ModifyRoutine(op: ModifyOp, i: Insn)
      requires i.def.mode == Accumulator || HasAddress(i.def.mode)
      modifies this`a, this`mem, this`p
      ensures var c := old(State());
              var t := EmulModify(op, c.regs, DataRead(c, i));
              State() == Apply(c, DataWrite(c, i, t.0, t.1))
    {
      hide DataRead, DataAddress, And, Or, Xor, Store, StoreAll, AdjustZN;
      var val: int := DataRead1(i);
      ghost var c := State();
      match op {
        case INC => { val := (val + 1) % 256; DataWrite1(i, val); AdjustStatus(val); }
        case DEC => { val := (val - 1) % 256; DataWrite1(i, val); AdjustStatus(val); }
        case TRB => { TestBits(val); AddressIgnoresStatus(c, i, p); DataWrite1(i, And(val, Xor(a, 0xFF))); }
        case TSB => { TestBits(val); AddressIgnoresStatus(c, i, p); DataWrite1(i, Or(val, a)); }
        case RMB(k) => { DataWrite1(i, And(val, 255 - BitMask(k))); }
        case SMB(k) => { DataWrite1(i, Or(val, BitMask(k))); }
        case _ => { val := ShiftRoutine(op, val); AddressIgnoresStatus(c, i, p); DataWrite1(i, val); }
      }
    }

    method TestBits(val: byte)
      modifies this`p
      ensures p == old(p).(z := And(a, val) == 0)
    {
      if And(a, val) != 0 { p := p.(z := false); } else { p := p.(z := true); }
    }

    /** The shift, the new carry and the other flags of emul_asl, emul_lsr,
        emul_rol and emul_ror. */
    method ShiftRoutine(op: ModifyOp, v: byte) returns (val: byte)
      requires op in {ASL, LSR, ROL, ROR}
      modifies this`p
      ensures State() == old(State()).(regs := EmulModify(op, old(State()).regs, v).0)
      ensures val == EmulModify(op, old(State()).regs, v).1
    {
      hide And, Or, Xor, AdjustZN;
      AndMask80(v);
      AndMask01(v);
      var ncarry;
      if op == ASL || op == ROL {
        ncarry := And(v, 0x80) != 0;
        val := 2 * v % 256;
        ShiftInLow(val);
        if op == ROL {
          val := if p.c then Or(val, 0x01) else And(val, 0xFE);
        }
      } else {
        ncarry := And(v, 0x01) != 0;
        val := v / 2;
        ShiftInHigh(val);
        if op == ROR {
          val := if p.c then Or(val, 0x80) else And(val, 0x7F);
        }
      }
      p := p.(c := ncarry);
      AdjustStatus(val);
    }

    /** The transfers, increments and decrements. */
    method MoveRoutine(op: MoveOp)
      modifies this`a, this`x, this`y, this`sp, this`p
      ensures State() == old(State()).(regs := EmulMove(op, old(State()).regs))
    {
      match op {
        case TAX => { x := a; AdjustStatus(x); }
        case TAY => { y := a; AdjustStatus(y); }
        case TSX => { x := sp; AdjustStatus(x); }
        case TXA => { a := x; AdjustStatus(a); }
        case TXS => { sp := x; }
        case TYA => { a := y; AdjustStatus(a); }
        case INX => { x := (x + 1) % 256; AdjustStatus(x); }
        case INY => { y := (y + 1) % 256; AdjustStatus(y); }
        case DEX => { x := (x - 1) % 256; AdjustStatus(x); }
        case DEY => { y := (y - 1) % 256; AdjustStatus(y); }
      }
    }

    method PushRoutine(op: PushOp)
      modifies this`mem, this`sp
      ensures State() == PushByte(old(State()), EmulPush(op, old(State()).regs))
    {
      hide Store, Or, Pack;
      match op {
        case PHA => { StackPush(a); }
        case PHX => { StackPush(x); }
        case PHY => { StackPush(y); }
        case PHP => { PhpAgrees(p); StackPush(Or(Pack(p), 0x30)); }
      }
    }

    method PullRoutine(op: PullOp)
      modifies this`a, this`x, this`y, this`sp, this`p
      ensures var t := PopByte(old(State())); State() == t.0.(regs := EmulPull(op, t.0.regs, t.1))
    {
      hide Load, Unpack, And, Or, FromStack;
      var v := StackPop();
      match op {
        case PLA => { a := v; AdjustStatus(a); }
        case PLX => { x := v; AdjustStatus(x); }
        case PLY => { y := v; AdjustStatus(y); }
        case PLP => { PulledStatus(v); p := Unpack(And(Or(v, 0x20), 0xEF)); }
      }
    }

    /** emul_jsr. */
    method CallRoutine(i: Insn)
      requires DefOk(i.def) && i.def.op.JSR?
      modifies this`mem, this`sp, this`pc
      ensures State() == Apply(old(State()), Emul(old(State()), i))
    {
      hide Store, PushSlot;
      ghost var c := State();
      var ret := (pc + 2) % 0x1_0000;
      StackPush(ret / 256);
      StackPush(ret % 256);
      PushedTwo(c, [ret / 256, ret % 256]);
      pc := i.op1 + 256 * i.op2;
    }

    /** emul_rts; the PC increment comes with Exec1. */
    method ReturnRoutine()
      modifies this`sp, this`pc
      ensures var c := old(State());
              State() == c.(regs := c.regs.(pc := LoadWord(c.mem, PullSlot(c.regs.sp, 1), PullSlot(c.regs.sp, 2)),
                                            sp := (c.regs.sp + 2) % 256))
    {
      hide Load;
      var lo: int := StackPop();
      var hi: int := StackPop();
      pc := lo + 256 * hi;
    }

    /** emul_rti. */
    method ResumeRoutine()
      modifies this`sp, this`pc, this`p
      ensures var c := old(State());
              State() == c.(regs := c.regs.(p := FromStack(Load(c.mem, PullSlot(c.regs.sp, 1))),
                                            pc := LoadWord(c.mem, PullSlot(c.regs.sp, 2), PullSlot(c.regs.sp, 3)),
                                            sp := (c.regs.sp + 3) % 256))
    {
      hide Load, Unpack, And, Or, FromStack;
      var s := StackPop();
      PulledStatus(s);
      p := Unpack(And(Or(s, 0x20), 0xEF));
      ReturnRoutine();
    }

    /** The branches and jumps. */
    method JumpRoutine(i: Insn)
      requires DefOk(i.def) && (i.def.op.CondBranch? || i.def.op.BitBranch? || i.def.op.BRA? || i.def.op.JMP?)
      modifies this`pc
      ensures State() == Apply(old(State()), Emul(old(State()), i))
    {
      hide Load, And, BitMask, Signed, DataRead, StoreAll;
      assert StoreAll(mem, []) == mem by { StoreNone(mem); }
      match i.def.op {
        case CondBranch(op) => {
          if Taken(op, p) {
            pc := (pc + Signed(i.op1) + 2) % 0x1_0000;
          } else {
            pc := (pc + i.def.size) % 0x1_0000;
          }
        }
        case BitBranch(on, k) => {
          var val := DataRead1(i);
          if (And(val, BitMask(k)) != 0) == on {
            pc := (pc + Signed(i.op2) + 3) % 0x1_0000;
          } else {
            pc := (pc + i.def.size) % 0x1_0000;
          }
        }
        case BRA => { pc := (pc + Signed(i.op1) + 2) % 0x1_0000; }
        case JMP => { JumpTo(i); }
      }
    }

    /** emul_jmp. */
    method JumpTo(i: Insn)
      requires ModeFits(i.def.mode, JMP)
      modifies this`pc
      ensures pc == EmulJmp(old(State()), i)
      ensures var abs := i.op1 + 256 * i.op2;
              var ptr := if i.def.mode == IndAbsoluteX then (abs + x) % 0x1_0000 else abs;
              pc == if i.def.mode == Absolute then abs else Load(mem, ptr) + 256 * Load(mem, (ptr + 1) % 0x1_0000)
    {
      hide Load;
      var target: int, iaddr: word;
      match i.def.mode {
        case Absolute => { target := i.op1 + 256 * i.op2; }
        case IndAbsolute => {
          iaddr := i.op1 + 256 * i.op2;
          target := Load(mem, iaddr);
          target := target + 256 * Load(mem, (iaddr + 1) % 0x1_0000);
        }
        case IndAbsoluteX => {
          iaddr := (i.op1 + 256 * i.op2 + x) % 0x1_0000;
          target := Load(mem, iaddr);
          target := target + 256 * Load(mem, (iaddr + 1) % 0x1_0000);
        }
      }
      pc := target;
    }

    /** The flag routines. */
    method FlagRoutine(op: FlagOp)
      modifies this`p
      ensures p == EmulFlag(op, old(p))
    {
      match op {
        case CLC => { p := p.(c := false); }
        case CLD => { p := p.(d := false); }
        case CLI => { p := p.(i := false); }
        case CLV => { p := p.(v := false); }
        case SEC => { p := p.(c := true); }
        case SED => { p := p.(d := true); }
        case SEI => { p := p.(i := true); }
      }
    }

    /** The routine of an instruction, called through the table. */
    method Routine(i: Insn)
      requires DefOk(i.def)
      modifies this
      ensures State() == Apply(old(State()), Emul(old(State()), i))
    {
      hide DataRead, DataAddress, EmulRead, EmulModify, EmulMove, EmulPush, EmulPull, EmulJmp, Load, Store,
        LoadWord, Pack, IrqPushes, FromStack;
      assert StoreAll(mem, []) == mem by { StoreNone(mem); }
      match i.def.op {
        case Read(op) => { ReadRoutine(op, i); }
        case Modify(op) => { ModifyRoutine(op, i); }
        case Put(op) => { PutRoutine(op, i); }
        case Flag(op) => { FlagRoutine(op); }
        case Move(op) => { MoveRoutine(op); }
        case Push(op) => { StoreOne(mem, Write(PushSlot(sp, 0), EmulPush(op, State().regs))); PushRoutine(op); }
        case Pull(op) => { PullRoutine(op); }
        case JSR => { CallRoutine(i); }
        case RTS => { ReturnRoutine(); }
        case RTI => { ResumeRoutine(); }
        case CondBranch(_) | BitBranch(_, _) | BRA | JMP => { JumpRoutine(i); }
        case BRK => {
          pc := (pc + 2) % 0x1_0000;
          p := p.(b := true);
          TakeIrq();
        }
        case STP => { run := Stopped(StopStp); }
        case WAI => { run := Stopped(StopWai); }
        case NOP | INVALID => {}
      }
    }

    method PutRoutine(op: PutOp, i: Insn)
      requires HasAddress(i.def.mode)
      modifies this`a, this`mem
      ensures State() == Apply(old(State()), DataWrite(old(State()), i, old(State()).regs, EmulPut(op, old(State()).regs)))
    {
      hide DataAddress, Store;
      match op {
        case STA => { DataWrite1(i, a); }
        case STX => { DataWrite1(i, x); }
        case STY => { DataWrite1(i, y); }
        case STZ => { DataWrite1(i, 0); }
      }
    }

    /** rk65c02_exec. */
    method Exec1()
      modifies this
      ensures State() == Exec(old(State()))
    {
      hide Emul, Fetch, StoreAll, IrqEntry;
      if irq && !p.i {
        TakeIrq();
      }
      var i := Fetch(mem, pc);
      Routine(i);
      if !i.def.modifyPc {
        pc := (pc + i.def.size) % 0x1_0000;
      }
    }
  }

  lemma AddressIgnoresStatus(c: Cpu, i: Insn, p: Flags)
    ensures HasAddress(i.def.mode) ==> DataAddress(c.(regs := c.regs.(p := p)), i) == DataAddress(c, i)
  {
    hide Load;
  }

  lemma PushedTwo(c: Cpu, xs: seq<byte>)
    requires |xs| == 2
    ensures PushByte(PushByte(c, xs[0]), xs[1])
            == c.(mem := StoreAll(c.mem, [Write(PushSlot(c.regs.sp, 0), xs[0]), Write(PushSlot(c.regs.sp, 1), xs[1])]),
                  regs := c.regs.(sp := (c.regs.sp - 2) % 256))
  {
    hide Store;
    var w0, w1 := Write(PushSlot(c.regs.sp, 0), xs[0]), Write(PushSlot(c.regs.sp, 1), xs[1]);
    StoreAllAppend(c.mem, [w0], [w1]);
    StoreOne(c.mem, w0);
    StoreOne(Store(c.mem, w0.addr, w0.val), w1);
    assert [w0] + [w1] == [w0, w1];
  }

  lemma PushedThree(c: Cpu, xs: seq<byte>)
    requires |xs| == 3
    ensures PushByte(PushByte(PushByte(c, xs[0]), xs[1]), xs[2])
            == c.(mem := StoreAll(c.mem, [Write(PushSlot(c.regs.sp, 0), xs[0]), Write(PushSlot(c.regs.sp, 1), xs[1]), Write(PushSlot(c.regs.sp, 2), xs[2])]),
                  regs := c.regs.(sp := (c.regs.sp - 3) % 256))
  {
    hide Store, StoreAll;
    var w0, w1, w2 := Write(PushSlot(c.regs.sp, 0), xs[0]), Write(PushSlot(c.regs.sp, 1), xs[1]), Write(PushSlot(c.regs.sp, 2), xs[2]);
    PushedTwo(c, xs[..2]);
    StoreAllAppend(c.mem, [w0, w1], [w2]);
    StoreOne(StoreAll(c.mem, [w0, w1]), w2);
    assert [w0, w1] + [w2] == [w0, w1, w2];
    Below(c.regs.sp, 2, 1);
  }
}
