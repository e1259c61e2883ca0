/** Running one compiled block: one emitted instruction, and where control goes
    after it. */
module BlockRun {
  import opened Machine
  import opened Isa
  import opened Interpreter
  import opened Emitter
  import opened Simulation
  import opened Blocks

  const LOOP_BUDGET := 256

  /** The machine and the stores after one emitted instruction. */
  datatype Out = Out(cpu: Cpu, writes: seq<Write>)

  /** Instruction `i` of a block at address `at`: native code, or the fallback
      call that interprets whatever memory holds at PC. */
  function RunInsn(c: Cpu, i: Insn, at: word): Out {
    var t := Emit(i.opcode);
    if t.TFallback? then Out(Exec(c), ExecWrites(c))
    else
      var e := RunTemplate(t, c, i, at);
      Out(Apply(c, e), e.writes)
  }

  /** No interrupt is due at any of the next `n` interpreter steps. */
  ghost predicate NotDue(c: Cpu, n: nat) {
    forall j: nat :: j < n ==> !TakesIrq(ExecN(c, j))
  }

  /** The processor is running at each of the next `n` interpreter steps. */
  ghost predicate RunsThrough(c: Cpu, n: nat) {
    forall j: nat :: j < n ==> ExecN(c, j).run == Running
  }

  /** No instruction of the block is left to the interpreter. */
  predicate NativeOnly(code: seq<Insn>) {
    forall k :: 0 <= k < |code| ==> !Emit(code[k].opcode).TFallback?
  }

  /** Known at entry to keep interrupts out of a block: the line is low, or I is
      set and the block has no CLI and no PLP. */
  predicate IrqSafe(c: Cpu, code: seq<Insn>) {
    c.irq ==> c.regs.p.i && forall k :: 0 <= k < |code| ==> code[k].opcode != 0x58 && code[k].opcode != 0x28
  }

  /** One emitted instruction is one interpreter step. */
  lemma RunInsnIsExec(c: Cpu, i: Insn)
    requires i == Fetch(c.mem, c.regs.pc) && !TakesIrq(c)
    ensures RunInsn(c, i, c.regs.pc) == Out(Exec(c), ExecWrites(c))
  {
    hide Def, Emit, RunTemplate, Retire, Load;
    if !Emit(i.opcode).TFallback? {
      NativeIsInterpreted(c, i);
    }
  }

  /** Memory after a step is memory after its stores. */
  lemma ExecStores(c: Cpu)
    ensures Exec(c).mem == StoreAll(c.mem, ExecWrites(c))
  {
    hide Retire, Fetch, StoreAll, IrqPushes;
    var c1 := AfterIrq(c);
    StoreAllAppend(c.mem, if TakesIrq(c) then IrqPushes(c.regs.sp, c.regs.pc, c.regs.p) else [],
                   Retire(c1, Fetch(c1.mem, c1.regs.pc)).writes);
    assert StoreAll(c.mem, []) == c.mem by { StoreNone(c.mem); }
  }

  lemma StoreNone(m: Memory)
    ensures StoreAll(m, []) == m
  {}

  // ----------------------------------------------------- facts about routines

  /** A routine that does not set PC leaves it alone, RTS excepted. */
  lemma EmulKeepsPc(c: Cpu, i: Insn)
    requires DefOk(i.def) && !i.def.modifyPc && !i.def.op.RTS?
    ensures Emul(c, i).regs.pc == c.regs.pc
  {
    hide DataRead, EmulRead, EmulModify, EmulMove, EmulFlag, EmulPush, EmulPull, DataAddress, Load, EmulPut;
    match i.def.op
    case Read(op) => ReadKeepsPc(op, c.regs, DataRead(c, i), i.def.mode == Immediate);
    case Modify(op) => ModifyKeepsPc(op, c.regs, DataRead(c, i));
    case Move(op) => MoveKeepsPc(op, c.regs);
    case Pull(op) => PullKeepsPc(op, c.regs.(sp := (c.regs.sp + 1) % 256), Load(c.mem, PullSlot(c.regs.sp, 1)));
    case _ =>
  }

  lemma ReadKeepsPc(op: ReadOp, r: Regs, v: byte, immediate: bool)
    ensures var r' := EmulRead(op, r, v, immediate); r'.pc == r.pc && r'.p.i == r.p.i
  {
    hide And, Or, Xor;
  }

  lemma ModifyKeepsPc(op: ModifyOp, r: Regs, v: byte)
    ensures var r' := EmulModify(op, r, v).0; r'.pc == r.pc && r'.p.i == r.p.i
  {
    hide And, Or, Xor;
  }

  lemma MoveKeepsPc(op: MoveOp, r: Regs)
    ensures var r' := EmulMove(op, r); r'.pc == r.pc && r'.p.i == r.p.i
  {}

  lemma PullKeepsPc(op: PullOp, r: Regs, v: byte)
    ensures var r' := EmulPull(op, r, v); r'.pc == r.pc && (op != PLP ==> r'.p.i == r.p.i)
  {
    hide FromStack;
  }

  lemma FlagKeepsMask(op: FlagOp, p: Flags)
    requires op != CLI && p.i
    ensures EmulFlag(op, p).i
  {
    match op
    case CLC => case CLD => case CLI => case CLV => case SEC => case SED => case SEI =>
  }

  /** Only CLI, PLP and RTI can clear I. */
  lemma EmulKeepsMask(c: Cpu, i: Insn)
    requires DefOk(i.def) && c.regs.p.i
    requires i.def.op != Flag(CLI) && i.def.op != Pull(PLP) && !i.def.op.RTI?
    ensures Emul(c, i).regs.p.i
  {
    hide DataRead, EmulRead, EmulModify, EmulMove, EmulFlag, EmulPush, EmulPull, DataAddress, Load, EmulPut,
      EmulJmp, StoreAll, FromStack, Pack;
    match i.def.op
    case Read(op) => ReadKeepsPc(op, c.regs, DataRead(c, i), i.def.mode == Immediate);
    case Modify(op) => ModifyKeepsPc(op, c.regs, DataRead(c, i));
    case Flag(op) => FlagKeepsMask(op, c.regs.p);
    case Move(op) => MoveKeepsPc(op, c.regs);
    case Pull(op) => PullKeepsPc(op, c.regs.(sp := (c.regs.sp + 1) % 256), Load(c.mem, PullSlot(c.regs.sp, 1)));
    case _ =>
  }

  /** Only STP and WAI stop the processor; the interrupt line only ever drops;
      no instruction stores more than three bytes. */
  lemma EmulKeepsRunning(c: Cpu, i: Insn)
    requires DefOk(i.def)
    ensures var e := Emul(c, i);
            && (!i.def.op.STP? && !i.def.op.WAI? ==> e.run == c.run)
            && (e.irq ==> c.irq)
            && |e.writes| <= 3
  {
    hide DataRead, EmulRead, EmulModify, EmulMove, EmulPush, EmulPull, DataAddress, Load, EmulPut, EmulJmp,
      StoreAll, Pack;
  }

  // ----------------------------------------------------------------- control

  /** The first instruction of the block at an address: the search for an
      in-block branch target. */
  function FirstAt(start: word, code: seq<Insn>, target: word, k: nat): Option<nat>
    requires k <= |code|
    decreases |code| - k
  {
    if k == |code| then None
    else if At(start, code, k) == target then Some(k)
    else FirstAt(start, code, target, k + 1)
  }

  method FindTarget(start: word, code: seq<Insn>, target: word) returns (tidx: Option<nat>)
    ensures tidx == FirstAt(start, code, target, 0)
  {
    hide At;
    tidx := None;
    for t := 0 to |code|
      invariant tidx.None? && FirstAt(start, code, target, 0) == FirstAt(start, code, target, t)
    {
      if At(start, code, t) == target {
        return Some(t);
      }
    }
  }

  lemma {:induction false} FirstAtIsAt(start: word, code: seq<Insn>, target: word, k: nat)
    requires k <= |code|
    ensures var r := FirstAt(start, code, target, k); r.Some? ==> r.value < |code| && At(start, code, r.value) == target
    decreases |code| - k
  {
    hide At;
    if k < |code| {
      FirstAtIsAt(start, code, target, k + 1);
    }
  }

  /** Where control goes after an instruction, and the remaining loop budget. */
  datatype Control = Leave(budget: int) | Goto(k: nat, budget: int)

  function Onward(code: seq<Insn>, k: nat, budget: int): Control {
    if k + 1 < |code| then Goto(k + 1, budget) else Leave(budget)
  }

  /** An in-block branch to instruction `j`; a back-edge passes the guard. */
  function Edge(k: nat, j: nat, budget: int, stop: bool, irq: bool): Control {
    if j > k then Goto(j, budget)
    else if budget - 1 <= 0 || stop || irq then Leave(budget - 1)
    else Goto(j, budget - 1)
  }

  /** Control after instruction `k` ran with flags `p` before it and left the
      machine `c`. */
  function After(b: Block, k: nat, p: Flags, c: Cpu, useJit: bool, stop: bool, budget: int): Control
    requires k < |b.code|
  {
    var i := b.code[k];
    var t := Emit(i.opcode);
    if t.TFallback? then
      if i.def.modifyPc || c.run != Running || !useJit then Leave(budget) else Onward(b.code, k, budget)
    else if ChecksBail(t) && !useJit then Leave(budget)
    else if Branches(t, p) then
      match FirstAt(b.start, b.code, BranchTarget(At(b.start, b.code, k), i), 0)
      case None => Leave(budget)
      case Some(j) => Edge(k, j, budget, stop, c.irq)
    else Onward(b.code, k, budget)
  }

  /** An instruction of the table after which a block can go on. */
  predicate MayGoOn(i: Insn) {
    i.def == Def(i.opcode) && DefOk(i.def) && !EndsBlock(i)
  }

  lemma MayGoOnOps(i: Insn)
    requires MayGoOn(i)
    ensures !i.def.op.RTS? && !i.def.op.STP? && !i.def.op.WAI? && !i.def.op.RTI?
    ensures i.def.modifyPc ==> i.def.op.CondBranch?
    ensures (i.def.op == Flag(CLI) <==> i.opcode == 0x58) && (i.def.op == Pull(PLP) <==> i.opcode == 0x28)
  {
    hide DefOk;
    var d := Def(i.opcode);
    hide Def;
    assert RowOk(i.opcode, d);
    assert DefOk(i.def);
    SetsPcOnly(i.def);
  }

  lemma SetsPcOnly(d: InstrDef)
    requires DefOk(d)
    ensures d.modifyPc == SetsPc(d.op)
  {}

  /** PC after an instruction that lets the block go on. */
  lemma PcAfter(c: Cpu, i: Insn)
    requires MayGoOn(i) && (Emit(i.opcode).TFallback? ==> !i.def.modifyPc)
    ensures var pc' := Retire(c, i).regs.pc;
            if !Emit(i.opcode).TFallback? && Branches(Emit(i.opcode), c.regs.p)
            then pc' == BranchTarget(c.regs.pc, i) else pc' == (c.regs.pc + i.def.size) % 0x1_0000
  {
    hide Def, Emit, Emul, EndsBlock;
    MayGoOnOps(i);
    var t := Emit(i.opcode);
    SwitchAgrees(i.opcode);
    if !t.TFallback? && t.TBranchIf? {
      SimulateCondBranch(t, c, i);
    } else {
      if !t.TFallback? {
        OnlyBranchIf(t, i.opcode, i.def);
      }
      EmulKeepsPc(c, i);
    }
  }

  lemma OnlyBranchIf(t: Template, opcode: byte, d: InstrDef)
    requires Compiles(t, opcode, d) && !t.TBranchIf?
    ensures !d.op.CondBranch?
  {}

  lemma ExecIsRetire(c: Cpu)
    requires !TakesIrq(c)
    ensures var e := Retire(c, Fetch(c.mem, c.regs.pc));
            Exec(c) == Apply(c, e) && ExecWrites(c) == e.writes && |e.writes| <= 3
  {
    hide Emul, Fetch, StoreAll;
    EmulKeepsRunning(c, Fetch(c.mem, c.regs.pc));
  }

  /** The block goes on only past instructions that may not end it. */
  lemma GotoMayGoOn(b: Block, k: nat, m: Memory, pc: word, p: Flags, c: Cpu, useJit: bool, stop: bool, budget: int)
    requires WellBuilt(b) && k < |b.code| && b.code[k] == Fetch(m, pc)
    requires After(b, k, p, c, useJit, stop, budget).Goto?
    ensures MayGoOn(b.code[k]) && (Emit(b.code[k].opcode).TFallback? ==> !b.code[k].def.modifyPc)
  {
    hide Def, Emit, Load, At, Off, FirstAt, EndsBlock, OnPage, Decoded;
    var i := b.code[k];
    SwitchAgrees(i.opcode);
    if k + 1 < |b.code| {
      assert !EndsBlock(i);
    } else {
      BranchDoesNotEnd(i);
    }
  }

  lemma BranchDoesNotEnd(i: Insn)
    requires i.def == Def(i.opcode) && Emit(i.opcode).TBranchIf?
    ensures !EndsBlock(i)
  {
    SwitchAgrees(i.opcode);
    hide Emit;
    var d := Def(i.opcode);
    hide Def;
    assert RowOk(i.opcode, d);
    MeantBranch(Emit(i.opcode), i.opcode, d);
  }

  lemma MeantBranch(t: Template, opcode: byte, d: InstrDef)
    requires Compiles(t, opcode, d) && t.TBranchIf?
    ensures d.op.CondBranch?
  {}

  lemma AtNext(start: word, code: seq<Insn>, k: nat)
    requires k < |code|
    ensures At(start, code, k + 1) == (At(start, code, k) + code[k].def.size) % 0x1_0000
  {}

  /** When control stays in the block, PC is at the instruction it goes to. */
  lemma GotoPc(b: Block, k: nat, c: Cpu, useJit: bool, stop: bool, budget: int)
    requires WellBuilt(b) && k < |b.code| && !TakesIrq(c)
    requires c.regs.pc == At(b.start, b.code, k) && b.code[k] == Fetch(c.mem, c.regs.pc)
    ensures var a := After(b, k, c.regs.p, Exec(c), useJit, stop, budget);
            a.Goto? ==> a.k < |b.code| && Exec(c).regs.pc == At(b.start, b.code, a.k)
  {
    hide Exec, Retire, Emit, Fetch, MayGoOn, WellBuilt, BranchTarget, FirstAt, Branches, At, Off;
    var a := After(b, k, c.regs.p, Exec(c), useJit, stop, budget);
    if a.Goto? {
      var i := b.code[k];
      ExecIsRetire(c);
      GotoMayGoOn(b, k, c.mem, c.regs.pc, c.regs.p, Exec(c), useJit, stop, budget);
      PcAfter(c, i);
      if !Emit(i.opcode).TFallback? && Branches(Emit(i.opcode), c.regs.p) {
        FirstAtIsAt(b.start, b.code, BranchTarget(c.regs.pc, i), 0);
      } else {
        AtNext(b.start, b.code, k);
      }
    }
  }

  /** When control stays in the block, the processor runs, and interrupts that
      were kept out still are. */
  lemma GotoSafe(b: Block, k: nat, c: Cpu, useJit: bool, stop: bool, budget: int)
    requires WellBuilt(b) && k < |b.code| && !TakesIrq(c) && c.run == Running
    requires b.code[k] == Fetch(c.mem, c.regs.pc)
    ensures After(b, k, c.regs.p, Exec(c), useJit, stop, budget).Goto? ==>
              Exec(c).run == Running && (IrqSafe(c, b.code) ==> IrqSafe(Exec(c), b.code))
  {
    hide Exec, Emit, Fetch, WellBuilt, MayGoOn, Emul, After;
    if After(b, k, c.regs.p, Exec(c), useJit, stop, budget).Goto? {
      var i := b.code[k];
      ExecIsRetire(c);
      GotoMayGoOn(b, k, c.mem, c.regs.pc, c.regs.p, Exec(c), useJit, stop, budget);
      MayGoOnOps(i);
      EmulKeepsRunning(c, i);
      if IrqSafe(c, b.code) && c.irq {
        EmulKeepsMask(c, i);
      }
    }
  }

  /** Control moves forward, or takes a back-edge that uses up budget; a taken
      back-edge stays in the block exactly when budget is left, no stop is
      requested and the interrupt line is down. */
  lemma AfterBounds(b: Block, k: nat, p: Flags, c: Cpu, useJit: bool, stop: bool, budget: int)
    requires k < |b.code|
    ensures var a := After(b, k, p, c, useJit, stop, budget);
            a.Goto? ==> && a.k < |b.code|
                        && (if a.k > k then a.budget == budget else a.budget == budget - 1 > 0 && !stop && !c.irq)
    ensures var j := FirstAt(b.start, b.code, BranchTarget(At(b.start, b.code, k), b.code[k]), 0);
            Branches(Emit(b.code[k].opcode), p) && j.Some? && j.value <= k ==>
              (After(b, k, p, c, useJit, stop, budget) == Goto(j.value, budget - 1) <==> budget > 1 && !stop && !c.irq)
  {
    hide Emit, GetFlag, FirstAt, BranchTarget, At;
    FirstAtIsAt(b.start, b.code, BranchTarget(At(b.start, b.code, k), b.code[k]), 0);
  }

  /** Memory after an emitted instruction is memory after its stores. */
  lemma RunInsnStores(c: Cpu, i: Insn, at: word)
    ensures RunInsn(c, i, at).cpu.mem == StoreAll(c.mem, RunInsn(c, i, at).writes)
  {
    hide Exec, ExecWrites, RunTemplate, Emit, StoreAll;
    if Emit(i.opcode).TFallback? {
      ExecStores(c);
    }
  }

  /** Emitted code that stores checks for the bail-out, so a block never goes on
      after a store that disabled the JIT. */
  lemma StoresLeave(b: Block, k: nat, c: Cpu, at: word, stop: bool, budget: int)
    requires k < |b.code| && RunInsn(c, b.code[k], at).writes != []
    ensures After(b, k, c.regs.p, RunInsn(c, b.code[k], at).cpu, false, stop, budget).Leave?
  {
    hide Exec, ExecWrites, RunTemplate, Emit, FirstAt, At, Branches;
    var t := Emit(b.code[k].opcode);
    if !t.TFallback? {
      StoresCheckBail(t, c, b.code[k], at);
    }
  }

  lemma StoresCheckBail(t: Template, c: Cpu, i: Insn, at: word)
    requires !t.TFallback? && RunTemplate(t, c, i, at).writes != []
    ensures ChecksBail(t)
  {
    hide RunInner, RunRead, RunModify, RunPull, HostAddress, Load, Get, And, BitMask;
  }

  /** The machine is about to run instruction `k` of the block. */
  predicate AtInsn(b: Block, k: nat, c: Cpu)
    requires k <= |b.code|
  {
    c.regs.pc == At(b.start, b.code, k) && c.run == Running
  }

  /** In a block equal to memory, with no interrupt due: an emitted instruction
      is one interpreter step, and control stays in the block only at the
      instruction the interpreter would execute next. */
  lemma SafeStep(b: Block, k: nat, c: Cpu, useJit: bool, stop: bool, budget: int)
    requires WellBuilt(b) && k < |b.code| && Matches(b.code, b.start, c.mem) && AtInsn(b, k, c) && !TakesIrq(c)
    ensures RunInsn(c, b.code[k], At(b.start, b.code, k)) == Out(Exec(c), ExecWrites(c)) && |ExecWrites(c)| <= 3
    ensures var a := After(b, k, c.regs.p, Exec(c), useJit, stop, budget);
            a.Goto? ==> a.k < |b.code| && AtInsn(b, a.k, Exec(c)) && (IrqSafe(c, b.code) ==> IrqSafe(Exec(c), b.code))
  {
    hide RunInsn, Exec, ExecWrites, After, Fetch, At, WellBuilt, Retire, IrqSafe;
    assert b.code[k] == Fetch(c.mem, c.regs.pc);
    RunInsnIsExec(c, b.code[k]);
    ExecIsRetire(c);
    GotoPc(b, k, c, useJit, stop, budget);
    GotoSafe(b, k, c, useJit, stop, budget);
  }

  // ------------------------------------------------------- the interrupt line

  /** Emitted code never changes the interrupt line or the run state. */
  lemma NativeKeepsLine(t: Template, c: Cpu, i: Insn, at: word)
    requires !t.TFallback?
    ensures var e := RunTemplate(t, c, i, at); e.irq == c.irq && e.run == c.run
  {
    hide RunInner, RunRead, RunModify, RunPull, HostAddress, LoadOperand, Load, Get, And, BitMask, AdvancePc, LoadWord;
  }

  lemma RunInsnKeepsLine(c: Cpu, i: Insn, at: word)
    requires !Emit(i.opcode).TFallback?
    ensures RunInsn(c, i, at).cpu.irq == c.irq
  {
    hide Emit, RunTemplate, StoreAll;
    NativeKeepsLine(Emit(i.opcode), c, i, at);
  }

  /** Nothing a block runs raises the line. */
  lemma RunInsnLine(c: Cpu, i: Insn, at: word)
    ensures RunInsn(c, i, at).cpu.irq ==> c.irq
  {
    hide Emit, RunTemplate, StoreAll, Exec, ExecWrites;
    if !Emit(i.opcode).TFallback? {
      RunInsnKeepsLine(c, i, at);
    } else if !c.irq {
      ExecKeepsLow(c);
    }
  }

  /** Native code without conditional branches. */
  predicate StraightLine(code: seq<Insn>) {
    forall k :: 0 <= k < |code| ==> !Emit(code[k].opcode).TFallback? && !Emit(code[k].opcode).TBranchIf?
  }

  /** Unless a store cleared use_jit, control goes on to the next instruction
      after every instruction but a conditional branch, and after a fallback that
      left the processor running and PC to the increment. */
  lemma StraightOn(b: Block, k: nat, p: Flags, c: Cpu, useJit: bool, stop: bool, budget: int)
    requires k < |b.code| && useJit && !Emit(b.code[k].opcode).TBranchIf?
    requires Emit(b.code[k].opcode).TFallback? ==> !b.code[k].def.modifyPc && c.run == Running
    ensures After(b, k, p, c, useJit, stop, budget) == if k + 1 < |b.code| then Goto(k + 1, budget) else Leave(budget)
  {
    hide Emit, FirstAt, At, BranchTarget;
  }

  lemma LineOn(b: Block, k: nat, p: Flags, c: Cpu, useJit: bool, stop: bool, budget: int)
    requires k < |b.code| && StraightLine(b.code) && useJit
    ensures After(b, k, p, c, useJit, stop, budget) == if k + 1 < |b.code| then Goto(k + 1, budget) else Leave(budget)
  {
    hide Emit, After;
    StraightOn(b, k, p, c, useJit, stop, budget);
  }

  /** The interpreter drops the line when it takes the interrupt. */
  lemma TakingDropsLine(c: Cpu)
    requires TakesIrq(c)
    ensures !Exec(c).irq
  {
    hide Emul, Fetch, StoreAll, LoadWord, IrqPushes;
    var c1 := AfterIrq(c);
    EmulKeepsRunning(c1, Fetch(c1.mem, c1.regs.pc));
  }

  /** Instructions never raise the interrupt line. */
  lemma ExecKeepsLow(c: Cpu)
    requires !c.irq
    ensures !Exec(c).irq
  {
    hide Emul, Fetch, StoreAll;
    ExecIsRetire(c);
    EmulKeepsRunning(c, Fetch(c.mem, c.regs.pc));
  }

  lemma {:induction false} ExecNKeepsLow(c: Cpu, n: nat)
    requires !c.irq
    ensures !ExecN(c, n).irq
  {
    hide Exec;
    if n > 0 {
      ExecNKeepsLow(c, n - 1);
      ExecKeepsLow(ExecN(c, n - 1));
    }
  }

  /** A run in which an interrupt fell due began with the line up and ends with
      it down. */
  lemma {:induction false} LateDrops(c: Cpu, n: nat)
    requires !NotDue(c, n)
    ensures c.irq && !ExecN(c, n).irq
  {
    hide Exec, TakesIrq;
    if !NotDue(c, n - 1) {
      LateDrops(c, n - 1);
      ExecKeepsLow(ExecN(c, n - 1));
    } else {
      assert TakesIrq(ExecN(c, n - 1));
      DueIsUp(ExecN(c, n - 1));
      if !c.irq {
        ExecNKeepsLow(c, n - 1);
        assert false;
      }
      TakingDropsLine(ExecN(c, n - 1));
    }
  }

  lemma DueIsUp(c: Cpu)
    requires TakesIrq(c)
    ensures c.irq
  {}

  /** A machine that kept the line and follows the interpreter while nothing is
      due: it is `n` steps on exactly when nothing was due. */
  lemma ExactlyNotDue(c0: Cpu, c: Cpu, n: nat)
    requires c.irq == c0.irq && (NotDue(c0, n) ==> c == ExecN(c0, n))
    ensures c == ExecN(c0, n) <==> NotDue(c0, n)
  {
    hide Exec, NotDue;
    if !NotDue(c0, n) {
      LateDrops(c0, n);
    }
  }

  /** An instruction that stores does not stop the processor. */
  lemma StoringRuns(c: Cpu)
    requires !TakesIrq(c) && c.run == Running && ExecWrites(c) != []
    ensures Exec(c).run == Running
  {
    hide Fetch, StoreAll, DataRead, EmulRead, EmulModify, EmulMove, EmulPush, EmulPull, DataAddress, Load, EmulPut, EmulJmp;
    ExecIsRetire(c);
    EmulKeepsRunning(c, Fetch(c.mem, c.regs.pc));
  }
}
