/** The status register: bit 5 is always set and B always clear between
    instructions, in both engines; B exists only on the stack. */
module Status {
  import opened Machine
  import opened Isa
  import opened Interpreter
  import opened Emitter
  import opened Simulation
  import opened BlockRun

  predicate StatusOk(p: Flags) {
    p.u && !p.b
  }

  /** The status register rk65c02_init sets. */
  const INITIAL_STATUS := Flags(false, false, true, false, false, true, false, false)

  lemma InitialStatus()
    ensures StatusOk(INITIAL_STATUS) && Pack(INITIAL_STATUS) == 0x24
  {}

  predicate SameBits(p: Flags, q: Flags) {
    q.u == p.u && q.b == p.b
  }

  lemma ReadStatus(op: ReadOp, r: Regs, v: byte, immediate: bool)
    ensures SameBits(r.p, EmulRead(op, r, v, immediate).p)
  {
    hide And, Or, Xor;
  }

  lemma ModifyStatus(op: ModifyOp, r: Regs, v: byte)
    ensures SameBits(r.p, EmulModify(op, r, v).0.p)
  {
    hide And, Or, Xor;
  }

  lemma MoveStatus(op: MoveOp, r: Regs)
    ensures SameBits(r.p, EmulMove(op, r).p)
  {}

  lemma FlagStatus(op: FlagOp, p: Flags)
    ensures SameBits(p, EmulFlag(op, p))
  {}

  lemma PullStatus(op: PullOp, r: Regs, v: byte)
    requires StatusOk(r.p)
    ensures StatusOk(EmulPull(op, r, v).p)
  {
    hide Unpack;
  }

  lemma EmulStatus(c: Cpu, i: Insn)
    requires DefOk(i.def) && StatusOk(c.regs.p)
    ensures StatusOk(Emul(c, i).regs.p)
  {
    hide DataRead, EmulRead, EmulModify, EmulMove, EmulFlag, EmulPush, EmulPull, DataAddress, Load, EmulPut,
      EmulJmp, StoreAll, Pack, Unpack;
    match i.def.op
    case Read(op) => ReadStatus(op, c.regs, DataRead(c, i), i.def.mode == Immediate);
    case Modify(op) => ModifyStatus(op, c.regs, DataRead(c, i));
    case Move(op) => MoveStatus(op, c.regs);
    case Flag(op) => FlagStatus(op, c.regs.p);
    case Pull(op) => PullStatus(op, c.regs.(sp := (c.regs.sp + 1) % 256), Load(c.mem, PullSlot(c.regs.sp, 1)));
    case _ =>
  }

  /** One interpreter step keeps the invariant. */
  lemma ExecStatus(c: Cpu)
    requires StatusOk(c.regs.p)
    ensures StatusOk(Exec(c).regs.p)
  {
    hide Emul, Fetch, StoreAll, LoadWord, IrqPushes;
    var c1 := AfterIrq(c);
    EmulStatus(c1, Fetch(c1.mem, c1.regs.pc));
  }

  /** The compile-time address of an instruction does not reach P. */
  lemma AddressNotInStatus(t: Template, c: Cpu, i: Insn, at: word, at': word)
    requires !t.TFallback?
    ensures RunTemplate(t, c, i, at).regs.p == RunTemplate(t, c, i, at').regs.p
  {
    hide RunInner, RunRead, RunModify, RunPull, HostAddress, LoadOperand, Load, Get, And, BitMask, LoadWord;
  }

  /** One emitted instruction of a block keeps it, interrupts or not. */
  lemma NativeStatus(c: Cpu, i: Insn, at: word)
    requires i.def == Def(i.opcode) && StatusOk(c.regs.p)
    ensures StatusOk(RunInsn(c, i, at).cpu.regs.p)
  {
    hide Def, Emit, Exec, ExecWrites, RunTemplate, Emul, StoreAll;
    if Emit(i.opcode).TFallback? {
      ExecStatus(c);
    } else {
      var d := Def(i.opcode);
      assert DefOk(d);
      NativeIsInterpreted(c, i);
      AddressNotInStatus(Emit(i.opcode), c, i, at, c.regs.pc);
      EmulStatus(c, i);
    }
  }

  /** The status byte on the stack: a hardware interrupt pushes B clear, BRK and
      PHP push B set; bit 5 is set in all three. */
  lemma PushedStatus(c: Cpu, i: Insn)
    requires StatusOk(c.regs.p) && DefOk(i.def)
    ensures Unpack(IrqPushes(c.regs.sp, c.regs.pc, c.regs.p)[2].val) == c.regs.p
    ensures i.def.op.BRK? ==> var ws := Emul(c, i).writes; |ws| == 3 && Unpack(ws[2].val) == c.regs.p.(b := true)
    ensures i.def.op == Push(PHP) ==> var ws := Emul(c, i).writes; |ws| == 1 && Unpack(ws[0].val) == c.regs.p.(b := true)
  {
    hide Pack, Unpack, StoreAll, LoadWord;
    UnpackPack(c.regs.p);
    UnpackPack(c.regs.p.(b := true));
    assert c.regs.p.(b := true, u := true) == c.regs.p.(b := true);
  }
}
