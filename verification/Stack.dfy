/** The hardware stack: last in, first out across the wrap of SP; calls and
    interrupts return where they should in every nested run. */
module Stack {
  import opened Machine
  import opened Isa
  import opened Interpreter
  import opened BlockRun

  // ---------------------------------------------------------------- LIFO

  /** stack_push. */
  function PushByte(c: Cpu, x: byte): Cpu {
    c.(mem := Store(c.mem, STACK_START + c.regs.sp, x), regs := c.regs.(sp := (c.regs.sp - 1) % 256))
  }

  /** stack_pop. */
  function PopByte(c: Cpu): (Cpu, byte) {
    var sp := (c.regs.sp + 1) % 256;
    (c.(regs := c.regs.(sp := sp)), Load(c.mem, STACK_START + sp))
  }

  datatype StackOp = DoPush(x: byte) | DoPop

  /** The machine after a run of pushes and pops, and the bytes popped. */
  function RunStack(c: Cpu, ops: seq<StackOp>): (Cpu, seq<byte>)
    decreases |ops|
  {
    if ops == [] then (c, [])
    else match ops[0]
      case DoPush(x) => RunStack(PushByte(c, x), ops[1..])
      case DoPop =>
        var t := PopByte(c);
        var rest := RunStack(t.0, ops[1..]);
        (rest.0, [t.1] + rest.1)
  }

  /** The same on an ideal stack of at most 256 bytes, newest last: what is left
      and what was popped; None on underflow or overflow. */
  function Ideal(st: seq<byte>, ops: seq<StackOp>): Option<(seq<byte>, seq<byte>)>
    decreases |ops|
  {
    if ops == [] then Some((st, []))
    else match ops[0]
      case DoPush(x) => if |st| == 256 then None else Ideal(st + [x], ops[1..])
      case DoPop =>
        if st == [] then None
        else match Ideal(st[..|st| - 1], ops[1..])
          case None => None
          case Some(rest) => Some((rest.0, [st[|st| - 1]] + rest.1))
  }

  /** The stack page is RAM. */
  predicate StackBacked(m: Memory) {
    forall v: word :: STACK_START <= v < STACK_START + 256 ==> m.backed[Phys(m, v)]
  }

  /** The machine holds the stack `st`, which began at stack pointer `base`. */
  predicate Holds(c: Cpu, base: byte, st: seq<byte>) {
    && |st| <= 256 && c.regs.sp == (base - |st|) % 256 && StackBacked(c.mem)
    && forall k :: 0 <= k < |st| ==> Load(c.mem, PushSlot(base, k)) == st[k]
  }

  /** Slots of the stack page are distinct physical bytes. */
  lemma SlotsDistinct(m: Memory, s: byte, t: byte)
    ensures Alias(m, STACK_START + s, STACK_START + t) <==> s == t
  {}

  /** A store to a stack slot. */
  lemma StoreSlot(m: Memory, s: byte, x: byte)
    requires StackBacked(m)
    ensures var m' := Store(m, STACK_START + s, x);
            && StackBacked(m') && SameLayout(m, m')
            && forall v: word :: STACK_START <= v < STACK_START + 256 ==>
                 Load(m', v) == if v == STACK_START + s then x else Load(m, v)
  {
    var m' := Store(m, STACK_START + s, x);
    forall v: word
      ensures Phys(m', v) == Phys(m, v)
    {}
    forall v: word | STACK_START <= v < STACK_START + 256
      ensures Load(m', v) == if v == STACK_START + s then x else Load(m, v)
    {
      SlotsDistinct(m, s, v - STACK_START);
    }
  }

  lemma PushHolds(c: Cpu, base: byte, st: seq<byte>, x: byte)
    requires Holds(c, base, st) && |st| < 256
    ensures Holds(PushByte(c, x), base, st + [x])
  {
    hide Store, Load, StackBacked;
    StoreSlot(c.mem, c.regs.sp, x);
    forall k | 0 <= k < |st + [x]|
      ensures Load(PushByte(c, x).mem, PushSlot(base, k)) == (st + [x])[k]
    {
      assert PushSlot(base, k) == STACK_START + (base - k) % 256;
    }
  }

  lemma PopHolds(c: Cpu, base: byte, st: seq<byte>)
    requires Holds(c, base, st) && st != []
    ensures Holds(PopByte(c).0, base, st[..|st| - 1]) && PopByte(c).1 == st[|st| - 1]
  {
    hide Phys;
  }

  /** Last in, first out: any run of pushes and pops that stays within 256 bytes
      pops what the ideal stack pops, whatever SP it starts from. */
  lemma {:induction false} Lifo(c: Cpu, base: byte, st: seq<byte>, ops: seq<StackOp>)
    requires Holds(c, base, st) && Ideal(st, ops).Some?
    ensures var r := RunStack(c, ops);
            r.1 == Ideal(st, ops).value.1 && Holds(r.0, base, Ideal(st, ops).value.0)
    decreases |ops|
  {
    hide Holds, PushByte, PopByte;
    if ops != [] {
      match ops[0] {
        case DoPush(x) =>
          HoldsBound(c, base, st);
          PushHolds(c, base, st, x);
          Lifo(PushByte(c, x), base, st + [x], ops[1..]);
        case DoPop =>
          PopHolds(c, base, st);
          Lifo(PopByte(c).0, base, st[..|st| - 1], ops[1..]);
      }
    }
  }

  lemma HoldsBound(c: Cpu, base: byte, st: seq<byte>)
    requires Holds(c, base, st)
    ensures |st| <= 256
  {}

  /** A balanced run from an empty stack restores SP. */
  lemma BalancedRestoresSp(c: Cpu, ops: seq<StackOp>)
    requires StackBacked(c.mem) && Ideal([], ops).Some? && Ideal([], ops).value.0 == []
    ensures RunStack(c, ops).0.regs.sp == c.regs.sp && RunStack(c, ops).1 == Ideal([], ops).value.1
  {
    hide Ideal, RunStack, StackBacked;
    Lifo(c, c.regs.sp, [], ops);
  }

  // --------------------------------------------------------- nested execution

  /** The operation of the instruction the next step executes; after interrupt
      entry that is the handler's first. */
  function NextOp(c: Cpu): Op {
    var c1 := AfterIrq(c);
    Fetch(c1.mem, c1.regs.pc).def.op
  }

  /** Bytes an operation leaves on the stack. */
  function Grows(op: Op): int {
    match op
    case Push(_) => 1
    case Pull(_) => -1
    case JSR => 2
    case RTS => -2
    case BRK => 3
    case RTI => -3
    case _ => 0
  }

  /** Bytes the next step pushes. */
  function Pushed(c: Cpu): nat {
    (if TakesIrq(c) then 3 else 0) + (if Grows(NextOp(c)) > 0 then Grows(NextOp(c)) else 0)
  }

  function Delta(c: Cpu): int {
    (if TakesIrq(c) then 3 else 0) + Grows(NextOp(c))
  }

  /** The depth of the stack after `n` steps, relative to its start. */
  function Depth(c: Cpu, n: nat): int {
    if n == 0 then 0 else Depth(c, n - 1) + Delta(ExecN(c, n - 1))
  }

  /** How far below `base` the stack pointer is. */
  function Below256(base: byte, sp: byte): nat {
    (base - sp) % 256
  }

  /** No step of the run pushes into the `live` bytes above its start: where SP
      is, there is room for what the step pushes. SP may move in any way. */
  ghost predicate Roomy(c: Cpu, n: nat, live: nat) {
    forall j: nat :: j < n ==> Below256(c.regs.sp, ExecN(c, j).regs.sp) + Pushed(ExecN(c, j)) + live <= 256
  }

  /** A nested run above `live` bytes: it never pops below where it started,
      never fills the page, and never loads SP with TXS. */
  ghost predicate Nested(c: Cpu, n: nat, live: nat) {
    && (forall j: nat :: j <= n ==> 0 <= Depth(c, j))
    && (forall j: nat :: j < n ==> Depth(c, j) + Pushed(ExecN(c, j)) + live <= 256)
    && (forall j: nat :: j < n ==> NextOp(ExecN(c, j)) != Move(TXS))
  }

  /** No data store of the run reaches the byte at `v`. */
  ghost predicate Avoids(c: Cpu, n: nat, v: word) {
    forall j: nat, k: nat ::
      j < n && Pushed(ExecN(c, j)) <= k < |ExecWrites(ExecN(c, j))| ==>
        !Alias(c.mem, ExecWrites(ExecN(c, j))[k].addr, v)
  }

  lemma EmulSp(c: Cpu, i: Insn)
    requires DefOk(i.def) && i.def.op != Move(TXS)
    ensures Emul(c, i).regs.sp == (c.regs.sp - Grows(i.def.op)) % 256
  {
    hide DataRead, EmulRead, EmulModify, EmulMove, EmulPush, EmulPull, DataAddress, Load, EmulPut, EmulJmp,
      StoreAll, Pack, EmulFlag, FromStack;
    match i.def.op
    case Read(op) => ReadSp(op, c.regs, DataRead(c, i), i.def.mode == Immediate);
    case Modify(op) => ModifySp(op, c.regs, DataRead(c, i));
    case Move(op) => MoveSp(op, c.regs);
    case Pull(op) => PullSp(op, c.regs.(sp := (c.regs.sp + 1) % 256), Load(c.mem, PullSlot(c.regs.sp, 1)));
    case _ =>
  }

  lemma ReadSp(op: ReadOp, r: Regs, v: byte, immediate: bool)
    ensures EmulRead(op, r, v, immediate).sp == r.sp
  {
    hide And, Or, Xor;
  }

  lemma ModifySp(op: ModifyOp, r: Regs, v: byte)
    ensures EmulModify(op, r, v).0.sp == r.sp
  {
    hide And, Or, Xor;
  }

  lemma MoveSp(op: MoveOp, r: Regs)
    requires op != TXS
    ensures EmulMove(op, r).sp == r.sp
  {}

  lemma PullSp(op: PullOp, r: Regs, v: byte)
    ensures EmulPull(op, r, v).sp == r.sp
  {
    hide FromStack;
  }

  /** Moving down twice on the stack page. */
  lemma Below(base: int, d: int, e: int)
    ensures ((base - d) % 256 - e) % 256 == (base - (d + e)) % 256
  {}

  /** The stack pointer moves by what the step pushes and pops. */
  lemma StepSp(c: Cpu)
    requires NextOp(c) != Move(TXS)
    ensures Exec(c).regs.sp == (c.regs.sp - Delta(c)) % 256
  {
    hide Emul, Fetch, StoreAll, LoadWord, IrqPushes, Grows;
    var c1 := AfterIrq(c);
    EmulSp(c1, Fetch(c1.mem, c1.regs.pc));
    Below(c.regs.sp, 3, Grows(NextOp(c)));
  }

  /** The stack stores of a routine, and nothing else, when it pushes. */
  lemma EmulPushes(c: Cpu, i: Insn)
    requires DefOk(i.def) && Grows(i.def.op) > 0
    ensures var ws := Emul(c, i).writes;
            |ws| == Grows(i.def.op) && forall k :: 0 <= k < |ws| ==> ws[k].addr == PushSlot(c.regs.sp, k)
  {
    hide Pack, EmulPush, StoreAll, LoadWord;
  }

  /** The first stores of a step are its pushes, one slot after the other. */
  lemma StepPushes(c: Cpu, k: nat)
    requires k < |ExecWrites(c)| && k < Pushed(c)
    ensures ExecWrites(c)[k].addr == STACK_START + (c.regs.sp - k) % 256
  {
    hide Emul, Fetch, StoreAll, LoadWord, Pack, Grows;
    var c1 := AfterIrq(c);
    var i := Fetch(c1.mem, c1.regs.pc);
    if Grows(i.def.op) > 0 {
      EmulPushes(c1, i);
    }
    if TakesIrq(c) && k >= 3 {
      Below(c.regs.sp, 3, k - 3);
      assert ExecWrites(c)[k] == Emul(c1, i).writes[k - 3];
    }
  }

  /** A slot being pushed at depth `d` is none of the live slots above. */
  lemma PushMissesLive(m: Memory, base: byte, d: nat, k: nat, i: nat)
    requires 1 <= i && d + k + i < 256
    ensures !Alias(m, STACK_START + ((base - d) % 256 - k) % 256, PullSlot(base, i))
  {
    Below(base, d, k);
    SlotsDistinct(m, (base - (d + k)) % 256, (base + i) % 256);
    FarApart(base, d + k, i);
  }

  lemma FarApart(base: byte, e: nat, i: nat)
    requires 1 <= i && e + i < 256
    ensures (base - e) % 256 != (base + i) % 256
  {}

  /** No store of one step reaches a live byte, if there is room for its pushes. */
  lemma StepMissesLive(c: Cpu, d: Cpu, live: nat, i: nat)
    requires 1 <= i <= live && Below256(c.regs.sp, d.regs.sp) + Pushed(d) + live <= 256 && SameLayout(c.mem, d.mem)
    requires forall k: nat :: Pushed(d) <= k < |ExecWrites(d)| ==> !Alias(c.mem, ExecWrites(d)[k].addr, PullSlot(c.regs.sp, i))
    ensures forall k :: 0 <= k < |ExecWrites(d)| ==> !Alias(d.mem, ExecWrites(d)[k].addr, PullSlot(c.regs.sp, i))
  {
    hide Exec, ExecWrites, Alias, Pushed, PullSlot, Below256;
    var depth := Below256(c.regs.sp, d.regs.sp);
    FromBelow(c.regs.sp, d.regs.sp);
    forall k | 0 <= k < |ExecWrites(d)|
      ensures !Alias(d.mem, ExecWrites(d)[k].addr, PullSlot(c.regs.sp, i))
    {
      SameAlias(c.mem, d.mem, ExecWrites(d)[k].addr, PullSlot(c.regs.sp, i));
      if k < Pushed(d) {
        StepPushes(d, k);
        PushMissesLive(c.mem, c.regs.sp, depth, k, i);
      }
    }
  }

  lemma FromBelow(base: byte, sp: byte)
    ensures sp == (base - Below256(base, sp)) % 256
  {}

  lemma LastStep(c: Cpu, n: nat, live: nat, v: word)
    requires n > 0 && Roomy(c, n, live) && Avoids(c, n, v)
    ensures Roomy(c, n - 1, live) && Avoids(c, n - 1, v)
    ensures var d := ExecN(c, n - 1);
            && Below256(c.regs.sp, d.regs.sp) + Pushed(d) + live <= 256
            && forall k: nat :: Pushed(d) <= k < |ExecWrites(d)| ==> !Alias(c.mem, ExecWrites(d)[k].addr, v)
  {
    hide Exec, ExecWrites, Alias, Pushed, Below256;
  }

  /** In a run with room, the live bytes above its start survive: whatever it
      calls, whatever interrupts it, and wherever it moves SP in between. */
  lemma {:induction false} LiveKept(c: Cpu, n: nat, live: nat, i: nat)
    requires 1 <= i <= live && Roomy(c, n, live) && Avoids(c, n, PullSlot(c.regs.sp, i))
    ensures var d := ExecN(c, n);
            SameLayout(c.mem, d.mem) && Load(d.mem, PullSlot(c.regs.sp, i)) == Load(c.mem, PullSlot(c.regs.sp, i))
  {
    hide Exec, ExecWrites, Load, Alias, PullSlot, Pushed, StoreAll, Roomy, Avoids, Below256;
    if n > 0 {
      var d := ExecN(c, n - 1);
      LastStep(c, n, live, PullSlot(c.regs.sp, i));
      LiveKept(c, n - 1, live, i);
      ExecStores(d);
      StepMissesLive(c, d, live, i);
      StoreAllFrame(d.mem, ExecWrites(d), PullSlot(c.regs.sp, i));
    }
  }

  /** In a run without TXS, SP is where the pushes and pops put it. */
  lemma {:induction false} DepthIsSp(c: Cpu, n: nat)
    requires forall j: nat :: j < n ==> NextOp(ExecN(c, j)) != Move(TXS)
    ensures ExecN(c, n).regs.sp == (c.regs.sp - Depth(c, n)) % 256
  {
    hide Exec, NextOp, Delta;
    if n > 0 {
      DepthIsSp(c, n - 1);
      StepSp(ExecN(c, n - 1));
      Below(c.regs.sp, Depth(c, n - 1), Delta(ExecN(c, n - 1)));
    }
  }

  /** A nested run has room, and one that ends at its own depth restores SP. */
  lemma NestedIsRoomy(c: Cpu, n: nat, live: nat)
    requires Nested(c, n, live)
    ensures Roomy(c, n, live) && (Depth(c, n) == 0 ==> ExecN(c, n).regs.sp == c.regs.sp)
  {
    hide Exec, NextOp, Pushed, Depth;
    DepthIsSp(c, n);
    forall j: nat | j < n
      ensures Below256(c.regs.sp, ExecN(c, j).regs.sp) + Pushed(ExecN(c, j)) + live <= 256
    {
      DepthIsSp(c, j);
      BelowDepth(c.regs.sp, Depth(c, j));
    }
  }

  lemma BelowDepth(base: byte, d: nat)
    ensures Below256(base, (base - d) % 256) <= d
  {}

  lemma SameAlias(m: Memory, m': Memory, v: word, w: word)
    requires SameLayout(m, m')
    ensures Alias(m', v, w) == Alias(m, v, w)
  {}

  /** A run that ends at the stack pointer it started from and leaves the `live`
      bytes above alone, with its pushes and with its data stores. */
  ghost predicate Balanced(c: Cpu, n: nat, live: nat) {
    && Roomy(c, n, live) && ExecN(c, n).regs.sp == c.regs.sp
    && forall i :: 1 <= i <= live ==> Avoids(c, n, PullSlot(c.regs.sp, i))
  }

  /** Nested pushes, pops, calls and interrupts are balanced. */
  lemma NestedIsBalanced(c: Cpu, n: nat, live: nat)
    requires Nested(c, n, live) && Depth(c, n) == 0 && forall i :: 1 <= i <= live ==> Avoids(c, n, PullSlot(c.regs.sp, i))
    ensures Balanced(c, n, live)
  {
    hide Exec, Nested, Roomy, Avoids, Depth;
    NestedIsRoomy(c, n, live);
  }

  /** After a balanced run SP and the live bytes are what they were. */
  lemma BalancedKeeps(c: Cpu, n: nat, live: nat)
    requires Balanced(c, n, live) && live > 0
    ensures var d := ExecN(c, n);
            && d.regs.sp == c.regs.sp
            && forall i :: 1 <= i <= live ==> Load(d.mem, PullSlot(c.regs.sp, i)) == Load(c.mem, PullSlot(c.regs.sp, i))
  {
    hide Exec, Roomy, Avoids, Load, PullSlot;
    forall i | 1 <= i <= live
      ensures Load(ExecN(c, n).mem, PullSlot(c.regs.sp, i)) == Load(c.mem, PullSlot(c.regs.sp, i))
    {
      LiveKept(c, n, live, i);
    }
  }

  lemma PushIsPull(sp: byte, n: nat, k: nat)
    requires k < n <= 256
    ensures PullSlot((sp - n) % 256, n - k) == PushSlot(sp, k)
  {}

  /** The stores that push the bytes `xs`. */
  function Pushes(sp: byte, xs: seq<byte>): seq<Write> {
    seq(|xs|, k requires 0 <= k < |xs| => Write(PushSlot(sp, k), xs[k]))
  }

  /** The stores of JSR, BRK and interrupt entry are stack_push calls in order. */
  lemma {:induction false} PushesAreStackPushes(c: Cpu, xs: seq<byte>)
    ensures RunStack(c, seq(|xs|, k requires 0 <= k < |xs| => DoPush(xs[k]))).0
            == c.(mem := StoreAll(c.mem, Pushes(c.regs.sp, xs)), regs := c.regs.(sp := (c.regs.sp - |xs|) % 256))
    decreases |xs|
  {
    hide Store, PushSlot;
    var ops := seq(|xs|, k requires 0 <= k < |xs| => DoPush(xs[k]));
    if xs != [] {
      var ys := xs[1..];
      PushesAreStackPushes(PushByte(c, xs[0]), ys);
      assert ops[1..] == seq(|ys|, k requires 0 <= k < |ys| => DoPush(ys[k]));
      PushesTail(c.regs.sp, xs);
      Below(c.regs.sp, 1, |ys|);
    }
  }

  lemma PushesTail(sp: byte, xs: seq<byte>)
    requires xs != []
    ensures Pushes(sp, xs)[0] == Write(STACK_START + sp, xs[0])
    ensures Pushes(sp, xs)[1..] == Pushes((sp - 1) % 256, xs[1..])
  {
    var us := Pushes((sp - 1) % 256, xs[1..]);
    forall k | 0 <= k < |us|
      ensures us[k] == Pushes(sp, xs)[k + 1]
    {
      Below(sp, 1, k);
    }
  }

  lemma {:induction false} PushesStored(m: Memory, sp: byte, xs: seq<byte>)
    requires |xs| <= 256 && StackBacked(m)
    ensures var m' := StoreAll(m, Pushes(sp, xs));
            StackBacked(m') && forall k :: 0 <= k < |xs| ==> Load(m', PushSlot(sp, k)) == xs[k]
  {
    hide Store, Load, StackBacked, StoreAll, PushSlot;
    if xs == [] {
      assert StoreAll(m, Pushes(sp, xs)) == m by { StoreNone(m); }
    } else {
      var n := |xs| - 1;
      var ys, w := xs[..n], Write(PushSlot(sp, n), xs[n]);
      PushesStored(m, sp, ys);
      var m1 := StoreAll(m, Pushes(sp, ys));
      assert Pushes(sp, xs) == Pushes(sp, ys) + [w];
      StoreAllAppend(m, Pushes(sp, ys), [w]);
      StoreOne(m1, w);
      PushSlots(sp, n);
      StoreSlot(m1, w.addr - STACK_START, w.val);
    }
  }

  lemma PushSlots(sp: byte, n: nat)
    requires n < 256
    ensures forall k: nat :: k < n ==> PushSlot(sp, k) != PushSlot(sp, n)
    ensures forall k: nat :: STACK_START <= PushSlot(sp, k) < STACK_START + 256
  {}

  lemma StoreOne(m: Memory, w: Write)
    ensures StoreAll(m, [w]) == Store(m, w.addr, w.val)
  {
    assert [w][1..] == [];
  }

  /** What pushes stored, read back from the pointer they leave. */
  lemma PushedAbove(m: Memory, sp: byte, xs: seq<byte>, i: nat)
    requires 1 <= i <= |xs| <= 256 && StackBacked(m)
    ensures Load(StoreAll(m, Pushes(sp, xs)), PullSlot((sp - |xs|) % 256, i)) == xs[|xs| - i]
  {
    hide Load, StackBacked, StoreAll, PullSlot, PushSlot, Pushes;
    PushesStored(m, sp, xs);
    PushIsPull(sp, |xs|, |xs| - i);
  }

  lemma CallEffect(c: Cpu)
    requires !TakesIrq(c) && NextOp(c) == JSR
    ensures var ret, c1 := (c.regs.pc + 2) % 0x1_0000, Exec(c);
            && c1.regs.sp == (c.regs.sp - 2) % 256
            && c1.mem == StoreAll(c.mem, Pushes(c.regs.sp, [ret / 256, ret % 256]))
  {
    hide Fetch, StoreAll, PushSlot;
    ExecIsRetire(c);
    var ret, i := (c.regs.pc + 2) % 0x1_0000, Fetch(c.mem, c.regs.pc);
    assert Emul(c, i).writes == Pushes(c.regs.sp, [ret / 256, ret % 256]);
  }

  /** JSR leaves the address of its last byte on the stack. */
  lemma CallPushes(c: Cpu)
    requires !TakesIrq(c) && NextOp(c) == JSR && StackBacked(c.mem)
    ensures var c1 := Exec(c);
            && c1.regs.sp == (c.regs.sp - 2) % 256
            && LoadWord(c1.mem, PullSlot(c1.regs.sp, 1), PullSlot(c1.regs.sp, 2)) == (c.regs.pc + 2) % 0x1_0000
  {
    hide Exec, NextOp, StoreAll, Load, StackBacked, PullSlot, Pushes;
    var ret := (c.regs.pc + 2) % 0x1_0000;
    var xs := [ret / 256, ret % 256];
    CallEffect(c);
    PushedAbove(c.mem, c.regs.sp, xs, 1);
    PushedAbove(c.mem, c.regs.sp, xs, 2);
  }

  /** RTS pops the two bytes above SP and goes one past them. */
  lemma ReturnPops(d: Cpu)
    requires !TakesIrq(d) && NextOp(d) == RTS
    ensures var e := Exec(d);
            && e.regs.sp == (d.regs.sp + 2) % 256
            && e.regs.pc == (LoadWord(d.mem, PullSlot(d.regs.sp, 1), PullSlot(d.regs.sp, 2)) + 1) % 0x1_0000
  {
    hide Fetch, Load, PullSlot, StoreAll;
    ExecIsRetire(d);
  }

  /** Every RTS lands just after its JSR: whatever a balanced run does between
      them, calls and interrupts included. */
  lemma CallReturns(c: Cpu, n: nat)
    requires !TakesIrq(c) && NextOp(c) == JSR && StackBacked(c.mem)
    requires Balanced(Exec(c), n, 2)
    requires var d := ExecN(Exec(c), n); !TakesIrq(d) && NextOp(d) == RTS
    ensures var e := Exec(ExecN(Exec(c), n)); e.regs.pc == (c.regs.pc + 3) % 0x1_0000 && e.regs.sp == c.regs.sp
  {
    hide Balanced, Exec, Load, PullSlot, StackBacked, NextOp;
    var c1 := Exec(c);
    CallPushes(c);
    BalancedKeeps(c1, n, 2);
    ReturnPops(ExecN(c1, n));
  }

  /** RTI pops the status byte and the return address. */
  lemma HandlerPops(d: Cpu)
    requires !TakesIrq(d) && NextOp(d) == RTI
    ensures var e := Exec(d);
            && e.regs.sp == (d.regs.sp + 3) % 256
            && e.regs.pc == LoadWord(d.mem, PullSlot(d.regs.sp, 2), PullSlot(d.regs.sp, 3))
            && e.regs.p == FromStack(Load(d.mem, PullSlot(d.regs.sp, 1)))
  {
    hide Fetch, Load, PullSlot, StoreAll, FromStack;
    ExecIsRetire(d);
  }

  /** After interrupt entry with return address `pc` and status `p`, a balanced
      handler ending in RTI restores SP, `pc` and the flags N, V, D, I, Z, C. */
  lemma EntryReturns(c: Cpu, pc: word, p: Flags, n: nat)
    requires StackBacked(c.mem)
    requires var h := Apply(c, IrqEntry(c, pc, p));
             && Balanced(h, n, 3)
             && var d := ExecN(h, n); !TakesIrq(d) && NextOp(d) == RTI
    ensures var e := Exec(ExecN(Apply(c, IrqEntry(c, pc, p)), n));
            e.regs.pc == pc && e.regs.sp == c.regs.sp && e.regs.p == p.(u := true, b := false)
  {
    hide Balanced, Exec, Load, PullSlot, StackBacked, NextOp, StoreAll, Pack, Unpack, PushSlot;
    var h := Apply(c, IrqEntry(c, pc, p));
    var xs := [pc / 256, pc % 256, Pack(p)];
    assert IrqPushes(c.regs.sp, pc, p) == Pushes(c.regs.sp, xs);
    PushedAbove(c.mem, c.regs.sp, xs, 1);
    PushedAbove(c.mem, c.regs.sp, xs, 2);
    PushedAbove(c.mem, c.regs.sp, xs, 3);
    BalancedKeeps(h, n, 3);
    HandlerPops(ExecN(h, n));
    UnpackPack(p);
  }

  /** A hardware interrupt: RTI resumes the interrupted program. The first step
      of the run is interrupt entry and the handler's first instruction. */
  lemma IrqReturns(c: Cpu, n: nat)
    requires TakesIrq(c) && StackBacked(c.mem) && Balanced(AfterIrq(c), n, 3)
    requires var d := ExecN(AfterIrq(c), n); !TakesIrq(d) && NextOp(d) == RTI
    ensures Exec(AfterIrq(c)) == Exec(c)
    ensures var e := Exec(ExecN(AfterIrq(c), n));
            e.regs.pc == c.regs.pc && e.regs.sp == c.regs.sp && e.regs.p == c.regs.p.(u := true, b := false)
  {
    hide Balanced, StackBacked, NextOp, StoreAll, Retire, Fetch, IrqPushes, LoadWord;
    assert AfterIrq(AfterIrq(c)) == AfterIrq(c);
    EntryReturns(c, c.regs.pc, c.regs.p, n);
  }

  /** BRK is interrupt entry with B set in the pushed status. */
  lemma BreakEnters(c: Cpu)
    requires !TakesIrq(c) && NextOp(c) == BRK
    ensures Exec(c) == Apply(c, IrqEntry(c, (c.regs.pc + 2) % 0x1_0000, c.regs.p.(b := true)))
  {
    hide StoreAll, Fetch, IrqEntry;
    ExecIsRetire(c);
  }

  /** BRK: RTI resumes two bytes after it. */
  lemma BreakReturns(c: Cpu, n: nat)
    requires !TakesIrq(c) && NextOp(c) == BRK && StackBacked(c.mem) && Balanced(Exec(c), n, 3)
    requires var d := ExecN(Exec(c), n); !TakesIrq(d) && NextOp(d) == RTI
    ensures var e := Exec(ExecN(Exec(c), n));
            && e.regs.pc == (c.regs.pc + 2) % 0x1_0000 && e.regs.sp == c.regs.sp
            && e.regs.p == c.regs.p.(u := true, b := false)
  {
    hide Balanced, StackBacked, IrqEntry, Exec, NextOp;
    BreakEnters(c);
    EntryReturns(c, (c.regs.pc + 2) % 0x1_0000, c.regs.p.(b := true), n);
  }
}
