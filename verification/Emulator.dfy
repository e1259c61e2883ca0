/** The emulator with its JIT: interpreted steps, block dispatch and the run
    loop, against the interpreter. */
module Emulators {
  import opened Machine
  import opened Isa
  import opened Interpreter
  import opened Blocks
  import opened Cache
  import opened Coherence
  import opened BlockRun
  import opened Status
  import opened Mmu

  /** No store of the run is an event. */
  predicate Quiescent(bs: seq<Option<Block>>, m: Memory, ws: seq<Write>) {
    forall j :: 0 <= j < |ws| ==> !Tracked(bs, m, ws[j].addr)
  }

  /** Every store that is an event has been recorded. */
  predicate AllRecorded(bs: seq<Option<Block>>, m: Memory, ws: seq<Write>, evs: seq<Event>) {
    forall j :: 0 <= j < |ws| && Tracked(bs, m, ws[j].addr) ==> Recorded(evs, ws[j].addr)
  }

  /** The addresses of stores, as events still to be noted. */
  function Unnoted(ws: seq<Write>): seq<Event> {
    seq(|ws|, j requires 0 <= j < |ws| => Event(ws[j].addr, None))
  }

  /** A remap the host makes while a store of instruction `at` of a dispatch
      reaches one of its devices. */
  datatype StoreRemap = StoreRemap(at: nat, pages: seq<byte>, ks: seq<Mark>)

  function Remapped(c: Cpu, pages: seq<byte>): Cpu
    requires |pages| == 256
  {
    c.(mem := c.mem.(pages := pages))
  }

  /** The store that makes the host remap belongs to the next instruction. */
  predicate Fires(remap: Option<StoreRemap>, n: nat, c: Cpu, b: Block, k: nat)
    requires k < |b.code|
  {
    remap.Some? && remap.value.at == n && RunInsn(c, b.code[k], At(b.start, b.code, k)).writes != []
  }

  /** The machine after a dispatch: with the new page map if the host remapped. */
  function Ended(c: Cpu, remap: Option<StoreRemap>, remapped: bool): Cpu {
    if remapped && remap.Some? && |remap.value.pages| == 256 then Remapped(c, remap.value.pages) else c
  }

  class Emulator {
    var cpu: Cpu
    const jit: CodeCache
    var jitRequested: bool
    /** Physical page $FF has had one virtual page since the cache was last
        empty, so that no store into a block has gone unseen. */
    ghost var all: bool

    /** rk65c02_init followed by rk65c02_jit_enable. */
    constructor (c: Cpu)
      ensures cpu == c && jit.useJit && jitRequested && all == TopPageUnaliased(c.mem)
      ensures Settled() && fresh(Parts())
    {
      cpu, jitRequested := c, true;
      all := TopPageUnaliased(c.mem);
      jit := new CodeCache();
      new;
      hide CodeCache.Valid, TopPageUnaliased;
      EmptySettled(jit.blocks[..], jit.blocks[..], c.mem, all);
    }

    ghost function Parts(): set<object> {
      {jit as object, jit.pageEvents, jit.mutablePage} + jit.Index()
    }

    /** Index exactness, and tags that fit the page map. */
    ghost predicate Valid()
      reads this`cpu, this`all, jit`physTotal, jit`active, jit.Index()
    {
      jit.Valid() && TagsOk(jit.blocks[..], cpu.mem) && (all ==> TopPageUnaliased(cpu.mem))
    }

    lemma TableValid()
      requires Valid()
      ensures jit.Valid() && jit.Shape() && jit.blocks.Length == CACHE_SIZE && TableOk(jit.blocks[..])
      ensures TagsOk(jit.blocks[..], cpu.mem) && (all ==> TopPageUnaliased(cpu.mem))
    {}

    /** At a dispatch point: valid, every block whose stores are caught equal to
        memory, nothing pending. */
    ghost predicate Settled()
      reads this, jit, jit.Index()
    {
      && Valid() && Coherent(jit.blocks[..], cpu.mem, all)
      && jit.pending == [] && !jit.overflow && !jit.needsFlush
    }

    /** The stores of one instruction inside a running block: each event clears
        use_jit and is recorded for the dispatcher. */
    method NoteInRun(m: Memory, ws: seq<Write>)
      requires jit.Valid() && TagsOk(jit.blocks[..], m) && EventsOk(jit.blocks[..], m, jit.pending)
      modifies Parts()
      ensures jit.Valid() && jit.View() == old(jit.View()) && jit.needsFlush == old(jit.needsFlush)
      ensures jit.useJit == (old(jit.useJit) && Quiescent(jit.blocks[..], m, ws))
      ensures EventsOk(jit.blocks[..], m, jit.pending)
      ensures jit.overflow || AllRecorded(jit.blocks[..], m, ws, jit.pending)
      ensures |jit.pending| <= |old(jit.pending)| + |ws|
      ensures |old(jit.pending)| + |ws| <= EVENT_SLOTS ==> jit.overflow == old(jit.overflow)
      ensures Quiescent(jit.blocks[..], m, ws) ==> jit.pending == old(jit.pending) && jit.overflow == old(jit.overflow)
    {
      hide CodeCache.Valid, TableOk, TagsOk, Tracked, EventAt, EventOk, Count, VirtHit, PhysHit;
      ghost var bs := jit.blocks[..];
      for j := 0 to |ws|
        invariant jit.Valid() && jit.View() == old(jit.View()) && jit.needsFlush == old(jit.needsFlush)
        invariant jit.useJit == (old(jit.useJit) && Quiescent(bs, m, ws[..j]))
        invariant EventsOk(bs, m, jit.pending)
        invariant jit.overflow || AllRecorded(bs, m, ws[..j], jit.pending)
        invariant |jit.pending| <= |old(jit.pending)| + j
        invariant |old(jit.pending)| + j <= EVENT_SLOTS ==> jit.overflow == old(jit.overflow)
        invariant Quiescent(bs, m, ws[..j]) ==> jit.pending == old(jit.pending) && jit.overflow == old(jit.overflow)
      {
        EventAtOk(bs, m, ws[j].addr);
        ghost var before := jit.pending;
        var event := jit.NoteGuestWrite(m, ws[j].addr, true);
        assert jit.blocks[..] == bs;
        assert event && |before| < EVENT_SLOTS ==> jit.pending[|before|].addr == ws[j].addr;
        NotedOne(bs, m, ws, j, before, jit.pending);
      }
      assert ws[..|ws|] == ws;
    }

    /** The same once a flush has been requested: the slots may fill with events
        of the old or the new map, and nothing else changes. */
    method NoteBeforeFlush(m: Memory, ws: seq<Write>)
      requires jit.Valid() && !jit.useJit
      modifies Parts()
      ensures jit.Valid() && jit.View() == old(jit.View()) && jit.needsFlush == old(jit.needsFlush) && !jit.useJit
      ensures |jit.pending| <= |old(jit.pending)| + |ws|
      ensures |old(jit.pending)| + |ws| <= EVENT_SLOTS ==> jit.overflow == old(jit.overflow)
    {
      hide CodeCache.Valid, EventAt, VirtHit, PhysHit, Tracked, TagsOk;
      for j := 0 to |ws|
        invariant jit.Valid() && jit.View() == old(jit.View()) && jit.needsFlush == old(jit.needsFlush) && !jit.useJit
        invariant |jit.pending| <= |old(jit.pending)| + j
        invariant |old(jit.pending)| + j <= EVENT_SLOTS ==> jit.overflow == old(jit.overflow)
      {
        var event := jit.NoteGuestWrite(m, ws[j].addr, true);
      }
    }

    /** The stores of an interpreted instruction, already in memory: each event
        is processed at once. */
    method NoteInterpreted(ws: seq<Write>)
      requires Valid() && StaleOnlyAt(jit.blocks[..], cpu.mem, Unnoted(ws), all)
      modifies Parts()
      ensures Valid() && Coherent(jit.blocks[..], cpu.mem, all) && SubTable(jit.blocks[..], old(jit.blocks[..]))
      ensures jit.pending == old(jit.pending) && jit.overflow == old(jit.overflow)
      ensures jit.needsFlush == old(jit.needsFlush) && jit.useJit == old(jit.useJit)
    {
      hide CodeCache.Valid, TableOk, TagsOk, Tracked, TopPageUnaliased, Count, Process, EventAt, StaleOnlyAt, Coherent,
        VirtHit, PhysHit;
      TableValid();
      for j := 0 to |ws|
        invariant jit.Valid() && TagsOk(jit.blocks[..], cpu.mem) && SubTable(jit.blocks[..], old(jit.blocks[..]))
        invariant StaleOnlyAt(jit.blocks[..], cpu.mem, Unnoted(ws[j..]), all)
        invariant jit.pending == old(jit.pending) && jit.overflow == old(jit.overflow)
        invariant jit.needsFlush == old(jit.needsFlush) && jit.useJit == old(jit.useJit)
      {
        TableValid();
        NoteSettles(jit.View(), cpu.mem, ws[j..], all);
        assert ws[j..][0] == ws[j] && ws[j..][1..] == ws[j + 1..];
        var event := jit.NoteGuestWrite(cpu.mem, ws[j].addr, false);
      }
      assert ws[|ws|..] == [];
      NothingStale(jit.blocks[..], cpu.mem, all);
    }

    /** rk65c02_exec outside a running block. */
    method ExecOne()
      requires Settled()
      modifies this`cpu, Parts()
      ensures cpu == Exec(old(cpu)) && Settled() && SubTable(jit.blocks[..], old(jit.blocks[..]))
      ensures jit.useJit == old(jit.useJit) && SameLayout(old(cpu).mem, cpu.mem)
      ensures StatusOk(old(cpu).regs.p) ==> StatusOk(cpu.regs.p)
    {
      hide Exec, ExecWrites, StaleOnlyAt, Coherent, TagsOk, TopPageUnaliased, CodeCache.Valid;
      var ws := ExecWrites(cpu);
      ExecStores(cpu);
      if StatusOk(cpu.regs.p) {
        ExecStatus(cpu);
      }
      TableValid();
      StoresMakeUnnoted(jit.blocks[..], cpu.mem, ws, all);
      LayoutKeeps(jit.blocks[..], cpu.mem, ws);
      cpu := Exec(cpu);
      NoteInterpreted(ws);
    }

    /** One emitted instruction of a running block, its stores noted, and where
        control goes. */
    method StepBlock(b: Block, k: nat, budget: int, stop: bool) returns (ctl: Control)
      requires Valid() && k < |b.code| && jit.useJit && Coherent(jit.blocks[..], cpu.mem, all)
      requires jit.pending == [] && !jit.overflow
      modifies this`cpu, Parts()
      ensures var o := RunInsn(old(cpu), b.code[k], At(b.start, b.code, k));
              && cpu == o.cpu && SameLayout(old(cpu).mem, cpu.mem)
              && jit.useJit == Quiescent(jit.blocks[..], old(cpu).mem, o.writes)
              && (|o.writes| <= 3 ==> |jit.pending| <= 3 && !jit.overflow)
      ensures Valid() && jit.View() == old(jit.View()) && jit.needsFlush == old(jit.needsFlush)
      ensures ctl == After(b, k, old(cpu).regs.p, cpu, jit.useJit, stop, budget) && (ctl.Goto? ==> jit.useJit)
      ensures jit.useJit ==> jit.pending == [] && !jit.overflow && Coherent(jit.blocks[..], cpu.mem, all)
      ensures EventsOk(jit.blocks[..], cpu.mem, jit.pending)
      ensures jit.overflow || StaleOnlyAt(jit.blocks[..], cpu.mem, jit.pending, all)
    {
      hide RunInsn, After, At, StaleOnlyAt, Coherent, TagsOk, TableOk, Quiescent, EventOk, TopPageUnaliased, CodeCache.Valid;
      TableValid();
      var c, at := cpu, At(b.start, b.code, k);
      var o := RunInsn(c, b.code[k], at);
      RunInsnStores(c, b.code[k], at);
      LayoutKeeps(jit.blocks[..], c.mem, o.writes);
      cpu := o.cpu;
      NoteInRun(c.mem, o.writes);
      RanInsn(jit.blocks[..], c.mem, o.writes, jit.pending, jit.overflow, all);
      ctl := After(b, k, c.regs.p, cpu, jit.useJit, stop, budget);
      if !jit.useJit {
        assert o.writes != [] by { QuiescentEmpty(jit.blocks[..], c.mem, o.writes); }
        StoresLeave(b, k, c, at, stop, budget);
      }
    }

    /** An emitted instruction whose store makes the host remap memory while the
        block runs: a full flush is requested and use_jit is cleared. */
    method StepRemap(b: Block, k: nat, mmu: Mmu, remap: StoreRemap)
      requires Valid() && k < |b.code| && jit.pending == [] && !jit.overflow
      requires RunInsn(cpu, b.code[k], At(b.start, b.code, k)).writes != []
      requires CanRemap(mmu, remap)
      modifies this`cpu, this`all, Parts(), mmu, mmu.tlb, mmu.changed
      ensures var o := RunInsn(old(cpu), b.code[k], At(b.start, b.code, k));
              && |remap.pages| == 256 && cpu == Remapped(o.cpu, remap.pages)
              && (|o.writes| <= 3 ==> |jit.pending| <= 3 && !jit.overflow)
      ensures jit.Valid() && jit.View() == old(jit.View()) && jit.needsFlush && !jit.useJit
      ensures SameLayout(Remapped(old(cpu), remap.pages).mem, cpu.mem)
      ensures all ==> TopPageUnaliased(cpu.mem)
      ensures mmu.Valid() && mmu.dirty <= old(mmu.dirty) && mmu.enabled == old(mmu.enabled)
      ensures mmu.translate == Some(PageCallback(remap.pages))
    {
      hide Valid, RunInsn, At, TagsOk, TableOk, TopPageUnaliased, CodeCache.Valid, Mmu.Valid, CanRemap, PageCallback,
        StoreAll, SameLayout, Remapped;
      TableValid();
      var c, at := cpu, At(b.start, b.code, k);
      var o := RunInsn(c, b.code[k], at);
      RunInsnStores(c, b.code[k], at);
      RemapInRun(mmu, remap);
      RemappedLayout(c, o.cpu, o.writes, remap.pages);
      cpu := Remapped(o.cpu, remap.pages);
      all := all && TopPageUnaliased(cpu.mem);
      NoteBeforeFlush(cpu.mem, o.writes);
    }

    /** The begin/mark/end bracket of a remap while a block runs. */
    method RemapInRun(mmu: Mmu, remap: StoreRemap)
      requires jit.Valid() && CanRemap(mmu, remap)
      modifies Parts(), mmu, mmu.tlb, mmu.changed
      ensures jit.Valid() && jit.View() == old(jit.View()) && jit.needsFlush && !jit.useJit
      ensures jit.pending == old(jit.pending) && jit.overflow == old(jit.overflow)
      ensures mmu.Valid() && mmu.dirty <= old(mmu.dirty) && mmu.enabled == old(mmu.enabled)
      ensures |remap.pages| == 256 && mmu.translate == Some(PageCallback(remap.pages))
    {
      hide CodeCache.Valid, Marked, SurvivorsUnmarked, SameOnPage, PageCallback, Agrees;
      forall p: byte | !Marked(remap.ks, p)
        ensures SameOnPage(PageCallback(cpu.mem.pages), PageCallback(remap.pages), p)
      {
        SamePages(cpu.mem.pages, remap.pages, p);
      }
      var deferred := mmu.Update(PageCallback(remap.pages), remap.ks, jit, true);
    }

    /** The MMU translates by the current page map and can take the remap. */
    ghost predicate CanRemap(mmu: Mmu, remap: StoreRemap)
      reads this`cpu, mmu, mmu.tlb
    {
      && mmu.Valid() && mmu.enabled && mmu.changed != jit.mutablePage
      && mmu.translate == Some(PageCallback(cpu.mem.pages))
      && MarksChanges(cpu.mem.pages, remap.pages, remap.ks) && remap.ks != []
    }

    /** The loop of a dispatch: until the block returns, or until the instruction
        whose store makes the host remap. `stopAt` is the number of instructions
        after which the host requests a stop; `n` counts those retired. */
    method RunUntil(b: Block, stopAt: nat, remap: Option<StoreRemap>) returns (n: nat, ctl: Control)
      requires Valid() && Coherent(jit.blocks[..], cpu.mem, all) && jit.pending == [] && !jit.overflow && !jit.needsFlush
      requires jit.useJit && jit.blocks.Length == CACHE_SIZE && jit.blocks[cpu.regs.pc] == Some(b) && cpu.run == Running
      modifies this`cpu, Parts()
      ensures Valid() && jit.View() == old(jit.View()) && !jit.needsFlush && SameLayout(old(cpu).mem, cpu.mem)
      ensures StatusOk(old(cpu).regs.p) ==> StatusOk(cpu.regs.p)
      ensures EventsOk(jit.blocks[..], cpu.mem, jit.pending)
      ensures jit.overflow || StaleOnlyAt(jit.blocks[..], cpu.mem, jit.pending, all)
      ensures jit.useJit ==> jit.pending == [] && !jit.overflow && Coherent(jit.blocks[..], cpu.mem, all)
      ensures WellBuilt(b) && Genuine(b.code)
      ensures ctl.Goto? ==> && jit.useJit && ctl.k < |b.code| && Fires(remap, n, cpu, b, ctl.k)
                            && InBudget(b, ctl, n, stopAt)
      ensures ctl.Leave? ==> 1 <= n <= MAX_INSNS * LOOP_BUDGET && n <= stopAt + MAX_INSNS
      ensures Pace(b, ctl, n, cpu.irq, jit.useJit)
      ensures var seen := Seen(b, old(cpu).mem, all);
              && Tracks(jit.blocks[..], b, old(cpu), cpu, n, ctl, jit.useJit, seen)
              && (seen && NotDue(old(cpu), n) ==> |jit.pending| <= 3 && !jit.overflow)
    {
      hide Valid, TableOk, TagsOk, StaleOnlyAt, Coherent, After, RunInsn, Exec, ExecWrites, EventsOk, WellBuilt, Matches,
        At, IrqSafe, Count, Quiescent, StatusOk, AtInsn, LastStoreOnly, Tracks, InBudget, NotDue, Seen, Genuine,
        StraightLine, Pace, CodeCache.Valid;
      ghost var c0, bs, seen := cpu, jit.blocks[..], Seen(b, cpu.mem, all);
      TableValid();
      BlockAt(bs, c0.regs.pc);
      NothingPending(bs, c0.mem, all);
      n := 0;
      ctl := Goto(0, LOOP_BUDGET);
      TracksStart(bs, b, c0, stopAt, seen);
      while ctl.Goto? && !Fires(remap, n, cpu, b, ctl.k)
        invariant Valid() && jit.View() == old(jit.View()) && !jit.needsFlush && SameLayout(c0.mem, cpu.mem)
        invariant jit.overflow || StaleOnlyAt(bs, cpu.mem, jit.pending, all)
        invariant EventsOk(bs, cpu.mem, jit.pending)
        invariant StatusOk(c0.regs.p) ==> StatusOk(cpu.regs.p)
        invariant jit.useJit ==> jit.pending == [] && !jit.overflow && Coherent(bs, cpu.mem, all)
        invariant ctl.Goto? ==> jit.useJit && ctl.k < |b.code| && 1 <= ctl.budget && InBudget(b, ctl, n, stopAt)
        invariant ctl.Leave? ==> 1 <= n <= MAX_INSNS * LOOP_BUDGET && n <= stopAt + MAX_INSNS
        invariant Tracks(bs, b, c0, cpu, n, ctl, jit.useJit, seen) && Pace(b, ctl, n, cpu.irq, jit.useJit)
        invariant seen && NotDue(c0, n) ==> |jit.pending| <= 3 && !jit.overflow
        decreases ctl.Goto?, ctl.budget, if ctl.Goto? then |b.code| - ctl.k else 0
      {
        ghost var c, k := cpu, ctl.k;
        SeenSameLayout(b, c0.mem, c.mem, all);
        if seen {
          LiveMatches(bs, c0.regs.pc, c.mem, all);
        }
        var stop := stopAt <= n;
        ghost var before := ctl;
        LiveStatus(b, k, c);
        ctl := StepBlock(b, ctl.k, ctl.budget, stop);
        StepBounds(b, before, c.regs.p, cpu, jit.useJit, n, stopAt);
        TracksStep(bs, b, c0, c, n, before, jit.useJit, stop, seen);
        PaceStep(b, before, c, n, jit.useJit, stop);
        n := n + 1;
      }
    }

    /** One dispatch: `b->fn(e)`. With `remap`, the host remaps memory while a
        store of the given instruction is made (`remapped`). */
    method RunBlock(b: Block, stopAt: nat, mmu: Mmu, remap: Option<StoreRemap>) returns (n: nat, remapped: bool)
      requires Settled() && jit.useJit && jit.blocks[cpu.regs.pc] == Some(b) && cpu.run == Running
      requires mmu.Valid() && (remap.Some? ==> CanRemap(mmu, remap.value))
      modifies this`cpu, this`all, Parts(), mmu, mmu.tlb, mmu.changed
      ensures Returned() && jit.View() == old(jit.View()) && (remapped ==> remap.Some? && |remap.value.pages| == 256)
      ensures 1 <= n <= 64 * 256 && n <= stopAt + 64
      ensures SameLayout(Ended(old(cpu), remap, remapped).mem, cpu.mem)
      ensures remapped ==> jit.needsFlush && !jit.useJit && mmu.translate == Some(PageCallback(remap.value.pages))
      ensures !remapped ==> !jit.needsFlush && all == old(all) && mmu.translate == old(mmu.translate)
      ensures mmu.Valid() && mmu.dirty <= old(mmu.dirty) && mmu.enabled == old(mmu.enabled)
      ensures StatusOk(old(cpu).regs.p) ==> StatusOk(cpu.regs.p)
      ensures Latency(b, old(cpu), n, cpu) && (StraightLine(b.code) ==> n == |b.code| || !jit.useJit)
      ensures var seen := Seen(b, old(cpu).mem, old(all));
              && Refines(b, old(cpu), n, cpu, Ended(ExecN(old(cpu), n), remap, remapped), seen)
              && (seen && NotDue(old(cpu), n) ==>
                    && |jit.pending| <= 3 && !jit.overflow
                    && if remapped then cpu.run == Running else LastStoreOnly(jit.blocks[..], old(cpu), n, jit.useJit))
    {
      hide Valid, TableOk, TagsOk, StaleOnlyAt, Coherent, After, RunInsn, Exec, ExecWrites, EventsOk, WellBuilt, Matches,
        At, IrqSafe, Count, Quiescent, StatusOk, AtInsn, LastStoreOnly, Tracks, NotDue, Seen, Genuine, InBudget,
        Refines, TopPageUnaliased, MarksChanges, ExecN, PageCallback, StraightLine, NativeOnly, Mmu.Valid, CodeCache.Valid;
      ghost var c0, seen := cpu, Seen(b, cpu.mem, all);
      TableValid();
      var ctl;
      n, ctl := RunUntil(b, stopAt, remap);
      remapped := ctl.Goto?;
      if remapped {
        n := Finish(b, stopAt, mmu, remap, n, ctl, c0, seen);
      } else {
        TableValid();
        TracksEnd(jit.blocks[..], b, c0, cpu, n, ctl, jit.useJit, seen);
      }
    }

    /** The last instruction of a dispatch, during which the host remaps: the block
        returns after this same instruction. */
    method Finish(b: Block, stopAt: nat, mmu: Mmu, remap: Option<StoreRemap>, k: nat, ctl: Control,
                  ghost c0: Cpu, ghost seen: bool) returns (n: nat)
      requires Valid() && Coherent(jit.blocks[..], cpu.mem, all) && jit.pending == [] && !jit.overflow && jit.useJit
      requires jit.blocks[c0.regs.pc] == Some(b) && SameLayout(c0.mem, cpu.mem) && seen == Seen(b, c0.mem, all)
      requires ctl.Goto? && ctl.k < |b.code| && Fires(remap, k, cpu, b, ctl.k) && InBudget(b, ctl, k, stopAt)
      requires WellBuilt(b) && Genuine(b.code) && Tracks(jit.blocks[..], b, c0, cpu, k, ctl, true, seen)
      requires Pace(b, ctl, k, cpu.irq, true)
      requires CanRemap(mmu, remap.value)
      modifies this`cpu, this`all, Parts(), mmu, mmu.tlb, mmu.changed
      ensures n == k + 1 && 1 <= n <= MAX_INSNS * LOOP_BUDGET && n <= stopAt + MAX_INSNS
      ensures jit.Valid() && jit.View() == old(jit.View()) && jit.needsFlush && !jit.useJit && (all ==> TopPageUnaliased(cpu.mem))
      ensures |remap.value.pages| == 256 && SameLayout(Remapped(old(cpu), remap.value.pages).mem, cpu.mem)
      ensures mmu.Valid() && mmu.dirty <= old(mmu.dirty) && mmu.enabled == old(mmu.enabled)
      ensures mmu.translate == Some(PageCallback(remap.value.pages))
      ensures StatusOk(old(cpu).regs.p) ==> StatusOk(cpu.regs.p)
      ensures Refines(b, c0, n, cpu, Remapped(ExecN(c0, n), remap.value.pages), seen) && Latency(b, c0, n, cpu)
      ensures seen && NotDue(c0, n) ==> |jit.pending| <= 3 && !jit.overflow && cpu.run == Running
    {
      hide Valid, TableOk, TagsOk, StaleOnlyAt, Coherent, After, RunInsn, Exec, ExecWrites, EventsOk, WellBuilt, Matches,
        At, IrqSafe, StatusOk, AtInsn, Tracks, NotDue, Seen, Genuine, InBudget, RunsThrough, NativeOnly, TopPageUnaliased,
        CanRemap, StraightLine, CodeCache.Valid;
      ghost var c := cpu;
      ghost var o := RunInsn(c, b.code[ctl.k], At(b.start, b.code, ctl.k));
      TableValid();
      SeenSameLayout(b, c0.mem, c.mem, all);
      if seen {
        LiveMatches(jit.blocks[..], c0.regs.pc, c.mem, all);
      }
      LiveStatus(b, ctl.k, c);
      TracksRemap(jit.blocks[..], b, c0, c, k, ctl, seen);
      LastInBudget(b, ctl, k, stopAt);
      PaceStep(b, ctl, c, k, false, false);
      ghost var p, stop := cpu.regs.p, stopAt <= k;
      StepRemap(b, ctl.k, mmu, remap.value);
      n := k + 1;
      StoresLeave(b, ctl.k, c, At(b.start, b.code, ctl.k), stop, ctl.budget);
      assert After(b, ctl.k, p, o.cpu, jit.useJit, stop, ctl.budget).Leave?;
      if seen && NativeOnly(b.code) {
        RemapExact(c0, o.cpu, n, remap.value.pages);
      }
    }

    /** What a block leaves to the dispatcher: a full flush was requested, or
        every stale block was touched by a recorded event (or slots ran out). */
    ghost predicate Returned()
      reads this, jit, jit.Index()
    {
      && jit.Valid() && (all ==> TopPageUnaliased(cpu.mem))
      && (jit.needsFlush || (&& TagsOk(jit.blocks[..], cpu.mem) && EventsOk(jit.blocks[..], cpu.mem, jit.pending)
                             && (jit.overflow || StaleOnlyAt(jit.blocks[..], cpu.mem, jit.pending, all))))
    }

    /** The pending events of a block: afterwards every block whose stores are
        caught equals memory, or a flush is still to come. */
    method SettleEvents() returns (exhausted: bool)
      requires Returned()
      modifies Parts()
      ensures jit.Valid() && jit.pending == [] && !jit.overflow && jit.useJit == old(jit.useJit)
      ensures SubTable(jit.blocks[..], old(jit.blocks[..]))
      ensures old(jit.overflow) ==> !jit.needsFlush && forall i :: 0 <= i < CACHE_SIZE ==> jit.blocks[i].None?
      ensures !old(jit.overflow) ==> jit.needsFlush == old(jit.needsFlush)
      ensures !old(jit.overflow) && !jit.needsFlush ==> TagsOk(jit.blocks[..], cpu.mem) && Coherent(jit.blocks[..], cpu.mem, all)
      ensures !old(jit.overflow) && old(jit.pending) == [] ==> jit.blocks[..] == old(jit.blocks[..]) && !exhausted
      ensures exhausted <==> (old(jit.pending) != [] || old(jit.overflow)) && jit.events >= 128
    {
      hide TableOk, TagsOk, TopPageUnaliased, StaleOnlyAt, EventsOk, Coherent, ProcessAll, SubTable, CodeCache.Valid;
      ghost var s := jit.View();
      exhausted := false;
      jit.Facts();
      if jit.pending != [] || jit.overflow {
        if !jit.overflow {
          ProcessAllSub(s, jit.pending);
          if !jit.needsFlush {
            ProcessAllSettles(s, cpu.mem, jit.pending, all);
          }
        }
        exhausted := jit.ProcessPending();
        EmptySettled(jit.blocks[..], s.blocks, cpu.mem, all);
      } else {
        SubTableRefl(jit.blocks[..]);
        if !jit.needsFlush {
          assert Unnoted([]) == [];
          NothingStale(jit.blocks[..], cpu.mem, all);
        }
      }
    }

    /** The dispatcher's work after a block returned: discard what its stores
        made stale, perhaps disable the JIT for the run, flush if a remap asked
        for it, restore use_jit. */
    method Settle(disabled: bool) returns (disabled': bool)
      requires Returned()
      modifies this`all, Parts()
      ensures Settled() && SubTable(jit.blocks[..], old(jit.blocks[..]))
      ensures disabled' <==> disabled || ((old(jit.pending) != [] || old(jit.overflow)) && jit.events >= 128)
      ensures jit.useJit == if old(jit.pending) != [] || old(jit.overflow) || old(jit.needsFlush)
                            then !disabled' && jitRequested else old(jit.useJit)
      ensures old(jit.pending) == [] && !old(jit.overflow) && !old(jit.needsFlush) ==> jit.blocks[..] == old(jit.blocks[..])
      ensures old(jit.overflow) || old(jit.needsFlush) ==> forall i :: 0 <= i < CACHE_SIZE ==> jit.blocks[i].None?
      ensures old(all) ==> all
      ensures old(jit.overflow) || old(jit.needsFlush) ==> all == TopPageUnaliased(cpu.mem)
    {
      hide TableOk, TagsOk, TopPageUnaliased, StaleOnlyAt, EventsOk, Coherent, SubTable, CodeCache.Valid;
      var touched := jit.pending != [] || jit.overflow || jit.needsFlush;
      ghost var bs, flushed := jit.blocks[..], jit.overflow || jit.needsFlush;
      jit.Facts();
      var exhausted := SettleEvents();
      disabled' := disabled || exhausted;
      FlushIfAsked();
      if touched {
        jit.useJit := !disabled' && jitRequested;
      }
      if flushed {
        all := TopPageUnaliased(cpu.mem);
        EmptySettled(jit.blocks[..], bs, cpu.mem, all);
      }
    }

    /** The flush a remap asked for. */
    method FlushIfAsked()
      requires jit.Valid() && jit.pending == [] && !jit.overflow
      modifies Parts()
      ensures jit.Valid() && jit.pending == [] && !jit.overflow && !jit.needsFlush
      ensures jit.useJit == old(jit.useJit) && jit.events == old(jit.events)
      ensures if old(jit.needsFlush) then forall i :: 0 <= i < CACHE_SIZE ==> jit.blocks[i].None?
              else jit.blocks[..] == old(jit.blocks[..])
    {
      hide CodeCache.Valid;
      if jit.needsFlush {
        jit.Flush();
      }
    }

    /** Find the block at PC, compiling it (and flushing a full cache) if needed. */
    method Lookup() returns (found: Option<Block>)
      requires Settled()
      modifies Parts()
      ensures Settled() && found == jit.blocks[cpu.regs.pc] && jit.useJit == old(jit.useJit)
      ensures found.Some? ==> TagMatches(found.value, cpu.mem)
      ensures old(jit.active) < 1024 || old(jit.blocks[cpu.regs.pc]).Some? ==>
                forall i :: 0 <= i < CACHE_SIZE && i != cpu.regs.pc ==> jit.blocks[i] == old(jit.blocks[i])
      ensures found.Some? <==> old(jit.blocks[cpu.regs.pc]).Some? || cpu.regs.pc % 256 + Fetch(cpu.mem, cpu.regs.pc).def.size <= 256
    {
      hide TableOk, TagsOk, Coherent, Count, Built, TopPageUnaliased, TagMatches, Fetch;
      var pc := cpu.regs.pc;
      if jit.blocks[pc].None? {
        if jit.active >= MAX_ACTIVE {
          ghost var full := jit.blocks[..];
          jit.Flush();
          EmptySettled(jit.blocks[..], full, cpu.mem, all);
        }
        ghost var bs := jit.blocks[..];
        var ok := jit.Compile(cpu.mem, pc);
        if ok {
          CompiledCoherent(bs, cpu.mem, pc, jit.blocks[pc], all);
        }
      }
      found := jit.blocks[pc];
      if found.Some? {
        TagStillMatches(jit.blocks[..], pc, cpu.mem);
      }
    }

    /** One dispatch of a live block and the work after it. The refinement: the
        machine moves by `n` interpreter steps, followed by the remap if the host
        made one, if (and for native code only if) no interrupt fell due. */
    method Dispatch(b: Block, disabled: bool, mmu: Mmu, remap: Option<StoreRemap>)
      returns (disabled': bool, n: nat, remapped: bool)
      requires Settled() && jit.useJit && cpu.run == Running && jit.blocks[cpu.regs.pc] == Some(b)
      requires mmu.Valid() && (remap.Some? ==> CanRemap(mmu, remap.value))
      modifies this`cpu, this`all, Parts(), mmu, mmu.tlb, mmu.changed
      ensures Settled() && 1 <= n <= MAX_INSNS * LOOP_BUDGET
      ensures SameLayout(Ended(old(cpu), remap, remapped).mem, cpu.mem)
      ensures remapped ==> && remap.Some? && |remap.value.pages| == 256
                           && mmu.translate == Some(PageCallback(remap.value.pages))
                           && forall i :: 0 <= i < CACHE_SIZE ==> jit.blocks[i].None?
      ensures !remapped ==> mmu.translate == old(mmu.translate)
      ensures old(all) && (remapped ==> TopPageUnaliased(cpu.mem)) ==> all
      ensures mmu.Valid() && mmu.dirty <= old(mmu.dirty) && mmu.enabled == old(mmu.enabled)
      ensures StatusOk(old(cpu).regs.p) ==> StatusOk(cpu.regs.p)
      ensures var seen := Seen(b, old(cpu).mem, old(all));
              && Refines(b, old(cpu), n, cpu, Ended(ExecN(old(cpu), n), remap, remapped), seen)
              && (seen && NotDue(old(cpu), n) && remapped ==> cpu.run == Running)
      ensures Latency(b, old(cpu), n, cpu)
    {
      hide Latency, Settled, Returned, TopPageUnaliased, LastStoreOnly, Exec, NotDue, Refines, Seen, CanRemap, StatusOk, ExecN, Ended,
        PageCallback, SubTable, Mmu.Valid, CodeCache.Valid;
      var stopAt: nat := *;
      n, remapped := RunBlock(b, stopAt, mmu, remap);
      disabled' := Settle(disabled);
    }
  }

  lemma CompiledCoherent(bs: seq<Option<Block>>, m: Memory, pc: word, s: Option<Block>, all: bool)
    requires pc < |bs| && Coherent(bs, m, all) && s.Some? && s.value.start == pc && Built(s.value.code, pc, m)
    ensures Coherent(bs[pc := s], m, all)
  {
    hide Matches, Seen;
  }

  /** The dispatcher's check that the block's tag is still the page PC maps to. */
  predicate TagMatches(b: Block, m: Memory) {
    match b.tag
    case NoTag => true
    case PageTag(p) => Phys(m, b.start) / 256 == p
    case ByteTag(s) => Phys(m, b.start) / 256 == s / 256
  }

  /** That check never fails at a dispatch point. */
  lemma TagStillMatches(bs: seq<Option<Block>>, i: nat, m: Memory)
    requires i < |bs| && bs[i].Some? && TagsOk(bs, m)
    ensures TagMatches(bs[i].value, m)
  {
    assert TagOk(bs[i].value, m);
  }

  lemma EmptySettled(bs': seq<Option<Block>>, bs: seq<Option<Block>>, m: Memory, all: bool)
    ensures |bs'| == |bs| && (forall i :: 0 <= i < |bs'| ==> bs'[i].None?) ==>
              SubTable(bs', bs) && Coherent(bs', m, all) && TagsOk(bs', m)
  {}

  /** No store of the first `n` instructions is an event. */
  ghost predicate AllQuiet(bs: seq<Option<Block>>, c0: Cpu, n: nat) {
    forall j: nat :: j < n ==> Quiescent(bs, c0.mem, ExecWrites(ExecN(c0, j)))
  }

  /** Of `n` instructions at most the last stored into compiled code; it did
      exactly when the JIT was disabled. */
  ghost predicate LastStoreOnly(bs: seq<Option<Block>>, c0: Cpu, n: nat, useJit: bool) {
    n >= 1 && AllQuiet(bs, c0, n - 1) && useJit == Quiescent(bs, c0.mem, ExecWrites(ExecN(c0, n - 1)))
  }

  /** Instructions retired so far are paid for by back-edges and position. */
  predicate InBudget(b: Block, ctl: Control, n: nat, stopAt: nat)
    requires ctl.Goto?
  {
    && ctl.k < |b.code| <= MAX_INSNS && 1 <= ctl.budget <= LOOP_BUDGET
    && n <= (LOOP_BUDGET - ctl.budget) * MAX_INSNS + ctl.k
    && (n > stopAt ==> n - stopAt <= ctl.k)
  }

  /** The pace of a dispatch: with the line up no back-edge is taken, so at most
      64 instructions retire; straight-line code retires one by one to its end,
      unless a store cleared use_jit. */
  predicate Pace(b: Block, ctl: Control, n: nat, irq: bool, useJit: bool) {
    && |b.code| <= 64 && (ctl.Goto? ==> ctl.k < |b.code|)
    && (irq ==> n <= if ctl.Goto? then ctl.k else |b.code|)
    && (StraightLine(b.code) ==> if ctl.Goto? then n == ctl.k else n == |b.code| || !useJit)
  }

  lemma PaceStep(b: Block, ctl: Control, c: Cpu, n: nat, useJit: bool, stop: bool)
    requires ctl.Goto? && Pace(b, ctl, n, c.irq, true)
    ensures var o := RunInsn(c, b.code[ctl.k], At(b.start, b.code, ctl.k));
            var ctl' := After(b, ctl.k, c.regs.p, o.cpu, useJit, stop, ctl.budget);
            && Pace(b, Leave(0), n + 1, o.cpu.irq, false)
            && ((ctl'.Goto? ==> useJit) ==> Pace(b, ctl', n + 1, o.cpu.irq, useJit))
  {
    hide RunInsn, After, At, StraightLine;
    var at := At(b.start, b.code, ctl.k);
    var o := RunInsn(c, b.code[ctl.k], at);
    RunInsnLine(c, b.code[ctl.k], at);
    AfterBounds(b, ctl.k, c.regs.p, o.cpu, useJit, stop, ctl.budget);
    if StraightLine(b.code) && useJit {
      LineOn(b, ctl.k, c.regs.p, o.cpu, useJit, stop, ctl.budget);
    }
  }

  /** How late a dispatch can be: with the interrupt line up at its end, and for
      native code with the line up at its entry, it retired at most 64
      instructions. */
  predicate Latency(b: Block, c0: Cpu, n: nat, c: Cpu) {
    (c.irq ==> n <= 64) && (c0.irq && NativeOnly(b.code) ==> n <= 64)
  }

  lemma QuiescentEmpty(bs: seq<Option<Block>>, m: Memory, ws: seq<Write>)
    ensures ws == [] ==> Quiescent(bs, m, ws)
  {}

  /** The table after the stores of one instruction were noted in a block. */
  lemma RanInsn(bs: seq<Option<Block>>, m: Memory, ws: seq<Write>, evs: seq<Event>, overflow: bool, all: bool)
    requires TableOk(bs) && Coherent(bs, m, all) && EventsOk(bs, m, evs)
    requires overflow || AllRecorded(bs, m, ws, evs)
    ensures EventsOk(bs, StoreAll(m, ws), evs)
    ensures overflow || StaleOnlyAt(bs, StoreAll(m, ws), evs, all)
    ensures Quiescent(bs, m, ws) ==> Coherent(bs, StoreAll(m, ws), all)
  {
    hide Matches, StoreAll, TableOk, Tracked, Seen;
    StoreAllLayout(m, ws);
    assert forall v: word :: Phys(StoreAll(m, ws), v) == Phys(m, v);
    forall i, es: seq<Event> | 0 <= i < |bs| && bs[i].Some?
      ensures FreshOrTouched(bs[i].value, m, es, all)
    {}
    if !overflow {
      StoresLeaveStaleOnlyAt(bs, m, ws, evs, all);
    }
    if Quiescent(bs, m, ws) {
      StoresLeaveStaleOnlyAt(bs, m, ws, [], all);
      assert Unnoted([]) == [];
      NothingStale(bs, StoreAll(m, ws), all);
    }
  }

  /** The first of the stores noted: what is stale was touched by the others. */
  lemma NoteSettles(s: Policy, m: Memory, ws: seq<Write>, all: bool)
    requires |s.pageEvents| == 256 && |s.mutablePages| == 256 && ws != [] && (all ==> TopPageUnaliased(m))
    requires TableOk(s.blocks) && TagsOk(s.blocks, m) && StaleOnlyAt(s.blocks, m, Unnoted(ws), all)
    ensures var v := ws[0].addr;
            if Tracked(s.blocks, m, v)
            then var bs := Process(s, EventAt(s.blocks, m, v)).blocks;
                 TagsOk(bs, m) && SubTable(bs, s.blocks) && StaleOnlyAt(bs, m, Unnoted(ws[1..]), all)
            else StaleOnlyAt(s.blocks, m, Unnoted(ws[1..]), all)
  {
    hide TableOk, TagsOk, TopPageUnaliased, Process, EventAt, Matches, Touches, Seen;
    var bs, v, rest := s.blocks, ws[0].addr, Unnoted(ws[1..]);
    var ev := EventAt(bs, m, v);
    EventAtOk(bs, m, v);
    forall i | 0 <= i < |bs| && bs[i].Some?
      ensures FreshOrTouched(bs[i].value, m, [ev] + rest, all)
      ensures !Tracked(bs, m, v) ==> FreshOrTouched(bs[i].value, m, rest, all)
    {
      var b := bs[i].value;
      assert FreshOrTouched(b, m, Unnoted(ws), all);
      if Seen(b, m, all) && !Matches(b.code, b.start, m) {
        var e :| 0 <= e < |ws| && Touches(b, m, Unnoted(ws)[e].addr);
        if e > 0 {
          assert rest[e - 1].addr == ws[e].addr && ([ev] + rest)[e].addr == ws[e].addr;
        } else {
          assert ([ev] + rest)[0].addr == ws[0].addr;
        }
      }
    }
    if Tracked(bs, m, v) {
      ProcessOneSettles(s, m, [ev] + rest, all);
      assert ([ev] + rest)[1..] == rest;
      ProcessSub(s, ev);
      SubTableOk(Process(s, ev).blocks, bs, m);
    }
  }

  lemma NothingStale(bs: seq<Option<Block>>, m: Memory, all: bool)
    requires StaleOnlyAt(bs, m, Unnoted([]), all)
    ensures Coherent(bs, m, all)
  {
    hide Matches, Seen;
    forall i | 0 <= i < |bs| && bs[i].Some? && Seen(bs[i].value, m, all)
      ensures Matches(bs[i].value.code, bs[i].value.start, m)
    {
      assert FreshOrTouched(bs[i].value, m, Unnoted([]), all);
    }
  }

  lemma StoresMakeUnnoted(bs: seq<Option<Block>>, m: Memory, ws: seq<Write>, all: bool)
    requires TableOk(bs) && Coherent(bs, m, all)
    ensures StaleOnlyAt(bs, StoreAll(m, ws), Unnoted(ws), all)
  {
    hide Matches, StoreAll, TableOk, Seen;
    forall i | 0 <= i < |bs| && bs[i].Some?
      ensures FreshOrTouched(bs[i].value, m, Unnoted(ws), all)
    {}
    forall j | 0 <= j < |ws|
      ensures Recorded(Unnoted(ws), ws[j].addr)
    {
      assert Unnoted(ws)[j].addr == ws[j].addr;
    }
    StoresLeaveStaleOnlyAt(bs, m, ws, Unnoted(ws), all);
  }

  /** Stores change neither tags nor the page map. */
  lemma LayoutKeeps(bs: seq<Option<Block>>, m: Memory, ws: seq<Write>)
    requires TagsOk(bs, m)
    ensures SameLayout(m, StoreAll(m, ws)) && TagsOk(bs, StoreAll(m, ws))
    ensures TopPageUnaliased(m) ==> TopPageUnaliased(StoreAll(m, ws))
  {
    hide StoreAll;
    StoreAllLayout(m, ws);
    forall v: word
      ensures Phys(StoreAll(m, ws), v) == Phys(m, v)
    {}
  }

  /** One more store noted: recorded if it is an event, unless slots ran out. */
  lemma NotedOne(bs: seq<Option<Block>>, m: Memory, ws: seq<Write>, j: nat, before: seq<Event>, after: seq<Event>)
    requires j < |ws| && before <= after
    ensures Quiescent(bs, m, ws[..j + 1]) <==> Quiescent(bs, m, ws[..j]) && !Tracked(bs, m, ws[j].addr)
    ensures AllRecorded(bs, m, ws[..j], before) && (Tracked(bs, m, ws[j].addr) ==> Recorded(after, ws[j].addr))
            ==> AllRecorded(bs, m, ws[..j + 1], after)
  {
    hide Tracked;
    assert ws[..j + 1] == ws[..j] + [ws[j]];
    forall v: word | Recorded(before, v)
      ensures Recorded(after, v)
    {
      var e :| 0 <= e < |before| && before[e].addr == v;
      assert after[e].addr == v;
    }
  }

  lemma SubTableRefl(bs: seq<Option<Block>>)
    ensures SubTable(bs, bs)
  {}

  lemma BlockAt(bs: seq<Option<Block>>, i: nat)
    requires i < |bs| && bs[i].Some? && TableOk(bs)
    ensures BlockOk(bs[i].value, i)
  {}

  /** A running block follows the interpreter: for a block whose stores are
      caught (`seen`), and while no interrupt is due, `c` is `n` running steps
      after `c0` and at the instruction the block runs next; only an instruction
      that ends the dispatch stored into code. Native code keeps the line, and
      interrupts known at entry to stay out do. */
  ghost predicate Tracks(bs: seq<Option<Block>>, b: Block, c0: Cpu, c: Cpu, n: nat, ctl: Control, useJit: bool, seen: bool) {
    && (NativeOnly(b.code) ==> c.irq == c0.irq)
    && (seen && IrqSafe(c0, b.code) ==> NotDue(c0, n) && (ctl.Goto? ==> IrqSafe(c, b.code)))
    && (seen && NotDue(c0, n) ==>
          && c == ExecN(c0, n) && RunsThrough(c0, n)
          && if ctl.Goto? then ctl.k < |b.code| && AtInsn(b, ctl.k, c) && AllQuiet(bs, c0, n)
             else LastStoreOnly(bs, c0, n, useJit))
  }

  lemma TracksStart(bs: seq<Option<Block>>, b: Block, c0: Cpu, stopAt: nat, seen: bool)
    requires BlockOk(b, c0.regs.pc) && c0.run == Running
    ensures WellBuilt(b) && Genuine(b.code) && |b.code| >= 1
    ensures Tracks(bs, b, c0, c0, 0, Goto(0, LOOP_BUDGET), true, seen) && InBudget(b, Goto(0, LOOP_BUDGET), 0, stopAt)
    ensures Pace(b, Goto(0, LOOP_BUDGET), 0, c0.irq, true)
  {
    hide Genuine, NativeOnly, Decoded, Straight, TagFits;
  }

  /** What a dispatch of `n` instructions from `c0` to `c` owes the interpreter,
      which is at `e`: with no interrupt due it is there, having run all the way;
      native code is there only then; and interrupts known at entry to stay out
      were not due. Blocks with unseen stores are excepted. */
  ghost predicate Refines(b: Block, c0: Cpu, n: nat, c: Cpu, e: Cpu, seen: bool) {
    seen ==>
      && (NotDue(c0, n) ==> c == e && RunsThrough(c0, n))
      && (NativeOnly(b.code) ==> (c == e <==> NotDue(c0, n)))
      && (IrqSafe(c0, b.code) ==> NotDue(c0, n))
  }

  lemma TracksEnd(bs: seq<Option<Block>>, b: Block, c0: Cpu, c: Cpu, n: nat, ctl: Control, useJit: bool, seen: bool)
    requires Tracks(bs, b, c0, c, n, ctl, useJit, seen) && ctl.Leave?
    ensures Refines(b, c0, n, c, ExecN(c0, n), seen) && (seen && NotDue(c0, n) ==> LastStoreOnly(bs, c0, n, useJit))
    ensures Pace(b, ctl, n, c.irq, useJit) ==> Latency(b, c0, n, c)
  {
    hide NotDue, RunsThrough, LastStoreOnly, NativeOnly, IrqSafe, Exec;
    if seen && NativeOnly(b.code) {
      ExactlyNotDue(c0, c, n);
    }
  }

  /** With nothing due before the next instruction, the interpreter's next step. */
  lemma NextStep(c0: Cpu, c: Cpu, n: nat, code: seq<Insn>)
    requires NotDue(c0, n) && c == ExecN(c0, n)
    ensures NotDue(c0, n + 1) <==> !TakesIrq(c)
    ensures ExecN(c0, n + 1) == Exec(c) && (IrqSafe(c, code) ==> !TakesIrq(c))
    ensures RunsThrough(c0, n) && c.run == Running ==> RunsThrough(c0, n + 1)
  {
    hide Exec;
  }

  lemma TracksStep(bs: seq<Option<Block>>, b: Block, c0: Cpu, c: Cpu, n: nat, ctl: Control, useJit: bool, stop: bool, seen: bool)
    requires ctl.Goto? && ctl.k < |b.code| && Tracks(bs, b, c0, c, n, ctl, true, seen) && SameLayout(c0.mem, c.mem)
    requires WellBuilt(b) && (seen ==> Matches(b.code, b.start, c.mem))
    requires useJit == Quiescent(bs, c.mem, RunInsn(c, b.code[ctl.k], At(b.start, b.code, ctl.k)).writes)
    ensures var o := RunInsn(c, b.code[ctl.k], At(b.start, b.code, ctl.k));
            var ctl' := After(b, ctl.k, c.regs.p, o.cpu, useJit, stop, ctl.budget);
            && ((ctl'.Goto? ==> useJit) ==> Tracks(bs, b, c0, o.cpu, n + 1, ctl', useJit, seen))
            && (seen && NotDue(c0, n + 1) ==> |o.writes| <= 3)
  {
    hide IrqSafe, AtInsn, WellBuilt, Matches, Exec, ExecWrites, RunInsn, After, At, Quiescent, AllQuiet, LastStoreOnly,
      RunsThrough, TakesIrq, NotDue;
    if NativeOnly(b.code) {
      RunInsnKeepsLine(c, b.code[ctl.k], At(b.start, b.code, ctl.k));
    }
    DuePrefix(c0, n);
    if seen && NotDue(c0, n) {
      NextStep(c0, c, n, b.code);
      AtRunning(b, ctl.k, c);
      if !TakesIrq(c) {
        SafeStep(b, ctl.k, c, useJit, stop, ctl.budget);
        QuietStep(bs, c0, c, n);
      }
    }
  }

  lemma DuePrefix(c: Cpu, n: nat)
    ensures NotDue(c, n + 1) ==> NotDue(c, n)
  {
    hide ExecN;
  }

  lemma AtRunning(b: Block, k: nat, c: Cpu)
    requires k <= |b.code| && AtInsn(b, k, c)
    ensures c.run == Running
  {
    hide At;
  }

  /** The instruction during which the host remaps is an interpreter step too. */
  lemma TracksRemap(bs: seq<Option<Block>>, b: Block, c0: Cpu, c: Cpu, n: nat, ctl: Control, seen: bool)
    requires ctl.Goto? && ctl.k < |b.code| && Tracks(bs, b, c0, c, n, ctl, true, seen)
    requires WellBuilt(b) && (seen ==> Matches(b.code, b.start, c.mem))
    requires RunInsn(c, b.code[ctl.k], At(b.start, b.code, ctl.k)).writes != []
    ensures var o := RunInsn(c, b.code[ctl.k], At(b.start, b.code, ctl.k));
            && (NativeOnly(b.code) ==> o.cpu.irq == c0.irq)
            && (seen && IrqSafe(c0, b.code) ==> NotDue(c0, n + 1))
            && (seen && NotDue(c0, n + 1) ==> && o.cpu == ExecN(c0, n + 1) && RunsThrough(c0, n + 1) && |o.writes| <= 3
                                              && o.cpu.run == Running)
  {
    hide IrqSafe, AtInsn, WellBuilt, Matches, Exec, ExecWrites, RunInsn, At, AllQuiet, RunsThrough, TakesIrq, NotDue;
    if NativeOnly(b.code) {
      RunInsnKeepsLine(c, b.code[ctl.k], At(b.start, b.code, ctl.k));
    }
    DuePrefix(c0, n);
    if seen && NotDue(c0, n) {
      NextStep(c0, c, n, b.code);
      AtRunning(b, ctl.k, c);
      if !TakesIrq(c) {
        SafeStep(b, ctl.k, c, false, false, ctl.budget);
        StoringRuns(c);
      }
    }
  }

  lemma RemappedLayout(c: Cpu, c': Cpu, ws: seq<Write>, pages: seq<byte>)
    requires c'.mem == StoreAll(c.mem, ws) && |pages| == 256
    ensures SameLayout(Remapped(c, pages).mem, Remapped(c', pages).mem)
  {
    hide StoreAll;
    StoreAllLayout(c.mem, ws);
  }

  lemma RemapExact(c0: Cpu, c: Cpu, n: nat, pages: seq<byte>)
    requires c.irq == c0.irq && (NotDue(c0, n) ==> c == ExecN(c0, n)) && |pages| == 256
    ensures Remapped(c, pages) == Remapped(ExecN(c0, n), pages) <==> NotDue(c0, n)
  {
    hide Exec, NotDue;
    if !NotDue(c0, n) {
      LateDrops(c0, n);
    }
  }

  lemma LastInBudget(b: Block, ctl: Control, n: nat, stopAt: nat)
    requires ctl.Goto? && InBudget(b, ctl, n, stopAt)
    ensures n + 1 <= MAX_INSNS * LOOP_BUDGET && n + 1 <= stopAt + MAX_INSNS
  {}

  lemma LiveMatches(bs: seq<Option<Block>>, i: nat, m: Memory, all: bool)
    requires i < |bs| && bs[i].Some? && Coherent(bs, m, all) && Seen(bs[i].value, m, all)
    ensures Matches(bs[i].value.code, bs[i].value.start, m)
  {}

  /** An instruction of a live block keeps the status invariant. */
  lemma LiveStatus(b: Block, k: nat, c: Cpu)
    requires k < |b.code| && Genuine(b.code)
    ensures StatusOk(c.regs.p) ==> StatusOk(RunInsn(c, b.code[k], At(b.start, b.code, k)).cpu.regs.p)
  {
    hide RunInsn, Def, At;
    if StatusOk(c.regs.p) {
      NativeStatus(c, b.code[k], At(b.start, b.code, k));
    }
  }

  /** Each step either moves forward or spends a back-edge. */
  lemma StepBounds(b: Block, ctl: Control, p: Flags, c: Cpu, useJit: bool, n: nat, stopAt: nat)
    requires ctl.Goto? && InBudget(b, ctl, n, stopAt)
    ensures n + 1 <= MAX_INSNS * LOOP_BUDGET && n + 1 <= stopAt + MAX_INSNS
    ensures var a := After(b, ctl.k, p, c, useJit, stopAt <= n, ctl.budget);
            a.Goto? ==> a.k < |b.code| && 1 <= a.budget && InBudget(b, a, n + 1, stopAt)
                        && (a.budget < ctl.budget || (a.budget == ctl.budget && a.k > ctl.k))
  {
    hide After;
    AfterBounds(b, ctl.k, p, c, useJit, stopAt <= n, ctl.budget);
  }

  lemma NothingPending(bs: seq<Option<Block>>, m: Memory, all: bool)
    requires Coherent(bs, m, all)
    ensures StaleOnlyAt(bs, m, [], all) && EventsOk(bs, m, [])
  {
    hide Matches, Seen;
    forall i | 0 <= i < |bs| && bs[i].Some?
      ensures FreshOrTouched(bs[i].value, m, [], all)
    {}
  }

  lemma QuietStep(bs: seq<Option<Block>>, c0: Cpu, c: Cpu, n: nat)
    requires SameLayout(c0.mem, c.mem)
    ensures c == ExecN(c0, n) && AllQuiet(bs, c0, n) ==>
              && ExecN(c0, n + 1) == Exec(c)
              && (Quiescent(bs, c.mem, ExecWrites(c)) <==> AllQuiet(bs, c0, n + 1))
              && LastStoreOnly(bs, c0, n + 1, Quiescent(bs, c.mem, ExecWrites(c)))
  {
    hide Exec, ExecWrites, Len;
    forall v: word
      ensures Tracked(bs, c.mem, v) == Tracked(bs, c0.mem, v)
    {
      assert forall i :: 0 <= i < |bs| && bs[i].Some? ==> Touches(bs[i].value, c.mem, v) == Touches(bs[i].value, c0.mem, v);
    }
  }
}
