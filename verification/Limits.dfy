/** Where the guarantees of the JIT end: the exact conditions behind the
    refinement and coherence theorems. */
module Limits {
  import opened Machine
  import opened Isa
  import opened Interpreter
  import opened Emitter
  import opened Blocks
  import opened BlockRun

  // -------------------------------------------------------- late interrupts

  /** A natively compiled instruction is an interpreter step exactly when no
      interrupt is due before it. */
  lemma NativeIffNotDue(c: Cpu, i: Insn)
    requires i == Fetch(c.mem, c.regs.pc) && !Emit(i.opcode).TFallback?
    ensures RunInsn(c, i, c.regs.pc) == Out(Exec(c), ExecWrites(c)) <==> !TakesIrq(c)
  {
    hide Exec, ExecWrites, Emit, Fetch, RunTemplate, StoreAll;
    if TakesIrq(c) {
      NativeKeepsLine(Emit(i.opcode), c, i, c.regs.pc);
      TakingDropsLine(c);
    } else {
      RunInsnIsExec(c, i);
    }
  }

  /** CLI itself is compiled correctly, leaves the block running, and unmasks. */
  lemma CliGoesOn(b: Block, c: Cpu)
    requires WellBuilt(b) && |b.code| >= 2 && b.code[0] == Fetch(c.mem, c.regs.pc) && b.start == c.regs.pc
    requires c.irq && c.regs.p.i && b.code[0].opcode == 0x58
    ensures Exec(c).irq && !Exec(c).regs.p.i && Exec(c).regs.pc == At(b.start, b.code, 1) && Exec(c).mem == c.mem
    ensures After(b, 0, c.regs.p, Exec(c), true, false, LOOP_BUDGET) == Goto(1, LOOP_BUDGET)
  {
    hide Decoded, Straight, OnPage, Fetch, FirstAt, RunTemplate;
    assert Def(0x58).op == Flag(CLI) && !Def(0x58).modifyPc && Def(0x58).size == 1;
    assert Emit(0x58) == TFlag(FlagI, false);
    hide Def, Emit;
    ExecIsRetire(c);
    AtNext(b.start, b.code, 0);
  }

  /** Every block that starts with CLI and goes on natively is late when it is
      entered with the line high and I set: after two instructions the line is
      still up, while the interpreter has taken the interrupt. */
  lemma LateInterrupt(b: Block, c: Cpu)
    requires WellBuilt(b) && |b.code| >= 2 && Matches(b.code, b.start, c.mem) && b.start == c.regs.pc
    requires c.irq && c.regs.p.i && b.code[0].opcode == 0x58 && !Emit(b.code[1].opcode).TFallback?
    ensures var c1 := RunInsn(c, b.code[0], b.start).cpu;
            && c1 == ExecN(c, 1)
            && After(b, 0, c.regs.p, c1, true, false, LOOP_BUDGET) == Goto(1, LOOP_BUDGET)
            && RunInsn(c1, b.code[1], At(b.start, b.code, 1)).cpu.irq
            && !ExecN(c, 2).irq
  {
    hide Exec, ExecWrites, RunInsn, Emit, Fetch, WellBuilt, After;
    assert At(b.start, b.code, 0) == b.start;
    assert b.code[0] == Fetch(c.mem, b.start);
    RunInsnIsExec(c, b.code[0]);
    CliGoesOn(b, c);
    var c1 := Exec(c);
    assert ExecN(c, 1) == c1;
    TakingDropsLine(c1);
    RunInsnKeepsLine(c1, b.code[1], At(b.start, b.code, 1));
  }

  // ---------------------------------------------------------- alias coherence

  /** A one-byte block at the last byte of virtual page `p`. */
  function TopNop(p: byte): Block {
    Block(256 * p + 255, (256 * p + 256) % 0x1_0000, [Insn(0xEA, 0, 0, Def(0xEA))], ByteTag(0xFFFF))
  }

  lemma TopNopShape(p: byte)
    ensures WellBuilt(TopNop(p)) && Len(TopNop(p)) == 1
  {
    assert Def(0xEA) == InstrDef(Implied, 1, NOP, false);
    hide Def;
    assert Off(TopNop(p).code, 1) == 1;
  }

  /** Two virtual pages on physical page $FF: a store through one of them misses
      the block on the other. */
  lemma TopAliasMissed(m: Memory, p: byte, q: byte)
    requires m.paged && p != q && m.pages[p] == 0xFF && m.pages[q] == 0xFF
    ensures var b, v := TopNop(p), 256 * q + 255;
            WellBuilt(b) && TagOk(b, m) && Touches(b, m, v) && !Discards(b, m, v)
  {
    hide Def, WellBuilt, Len;
    TopNopShape(p);
  }

  /** Store events discard every block they touch exactly when physical page $FF
      has at most one virtual page. */
  lemma EventsSufficeIff(m: Memory)
    ensures TopPageUnaliased(m)
            <==> forall b: Block, v: word :: WellBuilt(b) && TagOk(b, m) && Touches(b, m, v) ==> Discards(b, m, v)
  {
    hide WellBuilt, TagOk, Touches, Discards;
    if TopPageUnaliased(m) {
      forall b: Block, v: word | WellBuilt(b) && TagOk(b, m) && Touches(b, m, v)
        ensures Discards(b, m, v)
      {
        DiscardsTouched(b, m, v);
      }
    } else {
      var p, q :| 0 <= p < 256 && 0 <= q < 256 && m.pages[p] == 0xFF && m.pages[q] == 0xFF && p != q;
      TopAliasMissed(m, p, q);
    }
  }

  // ------------------------------------------------------- rebuilding a block

  /** A live block equals what the builder would produce now exactly when the
      builder would stop where the block stops. */
  lemma RebuildIff(b: Block, m: Memory, rebuilt: seq<Insn>)
    requires WellBuilt(b) && Matches(b.code, b.start, m) && Built(rebuilt, b.start, m)
    ensures b.code == rebuilt
            <==> BuildStops(b.code, b.start) || !Fits(b.start, b.code, Fetch(m, At(b.start, b.code, |b.code|)))
  {
    hide Fetch, EndsBlock, DefOk, At, Off, OnPage, Fits, BuildStops, Matches, Straight;
    FreshBuildExtends(b, m, rebuilt);
    if |b.code| < |rebuilt| {
      BuiltGoesOn(rebuilt, b.start, m, |b.code|);
      assert rebuilt[..|b.code|] == b.code;
    } else {
      assert b.code == rebuilt;
    }
  }

  lemma BuiltGoesOn(code: seq<Insn>, start: word, m: Memory, n: nat)
    requires Built(code, start, m) && 0 < n < |code|
    ensures !BuildStops(code[..n], start) && Fits(start, code[..n], Fetch(m, At(start, code[..n], n)))
  {
    hide Fetch, EndsBlock, At, Off, OnPage, Fits, BuildStops, Matches;
    var whole := Block(start, EndOf(start, code), code, NoTag);
    BuilderGoesOn(whole, code[..n]);
    MatchesAt(code, start, m, n);
  }

  function EndOf(start: word, code: seq<Insn>): word {
    (start + Off(code, |code|)) % 0x1_0000
  }

  lemma MatchesAt(code: seq<Insn>, start: word, m: Memory, n: nat)
    requires Matches(code, start, m) && n < |code|
    ensures code[n] == Fetch(m, At(start, code, n))
  {}

  /** It need not: a NOP followed, at the end of its page, by an instruction that
      did not fit is a block of one; when the byte after it becomes a NOP, which
      is not a store into the block, the builder would go on. */
  lemma RebuildDiffers(m: Memory, rebuilt: seq<Insn>)
    requires !m.paged && m.bytes[0x2FE] == 0xEA && m.bytes[0x2FF] == 0xEA
    requires Built(rebuilt, 0x2FE, m)
    ensures var b := Block(0x2FE, 0x2FF, [Fetch(m, 0x2FE)], NoTag);
            && Built(b.code, b.start, m.(bytes := m.bytes[0x2FF := 0xAD]))
            && WellBuilt(b) && Matches(b.code, b.start, m) && !Touches(b, m, 0x2FF) && b.code != rebuilt
  {
    hide Fetch, Def, Built;
    var b := Block(0x2FE, 0x2FF, [Fetch(m, 0x2FE)], NoTag);
    OneNop(m);
    OneNop(m.(bytes := m.bytes[0x2FF := 0xAD]));
    RebuildIff(b, m, rebuilt);
  }

  /** The block of one NOP before the last byte of page 2: the builder ends it
      there if and only if the instruction after it does not fit. */
  lemma OneNop(m: Memory)
    requires !m.paged && m.bytes[0x2FE] == 0xEA && m.bytes[0x2FF] in {0xEA, 0xAD}
    ensures var b := Block(0x2FE, 0x2FF, [Fetch(m, 0x2FE)], NoTag);
            && Fetch(m, 0x2FE) == Insn(0xEA, 0, 0, InstrDef(Implied, 1, NOP, false))
            && WellBuilt(b) && Matches(b.code, b.start, m) && !Touches(b, m, 0x2FF) && !BuildStops(b.code, b.start)
            && (Fits(b.start, b.code, Fetch(m, At(b.start, b.code, 1))) <==> m.bytes[0x2FF] == 0xEA)
            && (m.bytes[0x2FF] == 0xAD ==> Built(b.code, b.start, m))
  {
    var b := Block(0x2FE, 0x2FF, [Fetch(m, 0x2FE)], NoTag);
    assert Fetch(m, 0x2FE) == Insn(0xEA, 0, 0, InstrDef(Implied, 1, NOP, false));
    assert Def(0xAD).size == 3 && Def(0xEA).size == 1;
    assert Fetch(m, 0x2FF).def == Def(m.bytes[0x2FF]);
    hide Def, Fetch;
    assert Off(b.code, 1) == 1 && At(0x2FE, b.code, 1) == 0x2FF && At(0x2FE, b.code, 0) == 0x2FE;
  }
}
