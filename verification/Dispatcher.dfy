/** The JIT run loop with its host: every boundary of a run is a state of the
    interpreter run with the same host events. */
module Dispatcher {
  import opened Machine
  import opened Isa
  import opened Interpreter
  import opened Blocks
  import opened Cache
  import opened Coherence
  import opened BlockRun
  import opened Emulators
  import opened Mmu
  import opened Status
  import Instructions

  // ------------------------------------------------------- the reference run

  /** What the host may do when it is called. */
  datatype HostEvent = HQuiet | HStop | HIrq(line: bool) | HRemap(pages: seq<byte>, ks: seq<Mark>)

  /** The effect of a host event on the guest machine. Raising the line wakes a
      processor that WAI put to sleep. */
  function HostDo(c: Cpu, ev: HostEvent): Cpu {
    match ev
    case HQuiet => c
    case HStop => c.(run := Stopped(StopHost))
    case HIrq(line) => c.(irq := line, run := if line && c.run == Stopped(StopWai) then Running else c.run)
    case HRemap(pages, _) => if |pages| == 256 then Remapped(c, pages) else c
  }

  /** An interpreter run: instructions and host events in order. */
  datatype Act = AStep | AHost(ev: HostEvent)

  function Do(c: Cpu, a: Act): Cpu {
    match a
    case AStep => Exec(c)
    case AHost(ev) => HostDo(c, ev)
  }

  function RunActs(c: Cpu, acts: seq<Act>): Cpu {
    if acts == [] then c else Do(RunActs(c, acts[..|acts| - 1]), acts[|acts| - 1])
  }

  /** What the run loops allow in a state: an instruction only while the machine
      is in the loop's state (`mode`), a host event then or when it is a stop
      request, or when the machine sleeps in WAI and the host is waited for. */
  predicate Allowed(c: Cpu, a: Act, mode: Run, idle: bool) {
    match a
    case AStep => c.run == mode
    case AHost(ev) => c.run == mode || ev.HStop? || (idle && c.run == Stopped(StopWai))
  }

  /** A run all of whose acts were allowed. */
  ghost predicate Orderly(c: Cpu, acts: seq<Act>, mode: Run, idle: bool) {
    acts != [] ==>
      var before := acts[..|acts| - 1];
      Orderly(c, before, mode, idle) && Allowed(RunActs(c, before), acts[|acts| - 1], mode, idle)
  }

  function Steps(n: nat): seq<Act> {
    seq(n, _ => AStep)
  }

  /** The host events of a run, in order. */
  function HostsOf(acts: seq<Act>): seq<HostEvent> {
    if acts == [] then []
    else
      var rest := HostsOf(acts[..|acts| - 1]);
      match acts[|acts| - 1]
      case AStep => rest
      case AHost(ev) => rest + [ev]
  }

  /** How many instructions the run executes. */
  function StepsOf(acts: seq<Act>): (n: nat)
    ensures n + |HostsOf(acts)| == |acts|
  {
    if acts == [] then 0 else StepsOf(acts[..|acts| - 1]) + (if acts[|acts| - 1] == AStep then 1 else 0)
  }

  lemma RunOne(c: Cpu, acts: seq<Act>, a: Act, mode: Run, idle: bool)
    ensures RunActs(c, acts + [a]) == Do(RunActs(c, acts), a)
    ensures Orderly(c, acts + [a], mode, idle) <==> Orderly(c, acts, mode, idle) && Allowed(RunActs(c, acts), a, mode, idle)
    ensures HostsOf(acts + [a]) == HostsOf(acts) + match a case AStep => [] case AHost(ev) => [ev]
    ensures StepsOf(acts + [a]) == StepsOf(acts) + if a == AStep then 1 else 0
  {
    hide Do, Allowed;
    assert (acts + [a])[..|acts|] == acts;
  }

  lemma {:induction false} RunSteps(c: Cpu, acts: seq<Act>, n: nat, idle: bool)
    ensures RunActs(c, acts + Steps(n)) == ExecN(RunActs(c, acts), n)
    ensures Orderly(c, acts, Running, idle) && RunsThrough(RunActs(c, acts), n) ==> Orderly(c, acts + Steps(n), Running, idle)
    ensures HostsOf(acts + Steps(n)) == HostsOf(acts) && StepsOf(acts + Steps(n)) == StepsOf(acts) + n
  {
    hide Exec, RunActs, HostsOf, StepsOf, Orderly;
    if n == 0 {
      assert acts + Steps(0) == acts;
    } else {
      RunSteps(c, acts, n - 1, idle);
      assert acts + Steps(n) == (acts + Steps(n - 1)) + [AStep];
      RunOne(c, acts + Steps(n - 1), AStep, Running, idle);
    }
  }

  /** From the initial status register, bit 5 is set and B clear after every
      run. */
  lemma {:induction false} RunStatus(c: Cpu, acts: seq<Act>)
    requires c.regs.p == INITIAL_STATUS
    ensures StatusOk(RunActs(c, acts).regs.p)
  {
    hide Exec, StatusOk;
    if acts == [] {
      assert StatusOk(INITIAL_STATUS) by { InitialStatus(); }
    } else {
      var c1 := RunActs(c, acts[..|acts| - 1]);
      RunStatus(c, acts[..|acts| - 1]);
      ExecStatus(c1);
    }
  }

  /** WAI: with no interrupt due, the processor sleeps just after it, and raising
      the line makes it run on from there; unless masked, the interrupt is then
      the next thing to happen, and it returns after the WAI. */
  lemma WaitWakes(c: Cpu)
    requires !TakesIrq(c) && Load(c.mem, c.regs.pc) == 0xCB && c.run == Running
    ensures RunActs(c, [AStep]).run == Stopped(StopWai)
    ensures var woken := RunActs(c, [AStep, AHost(HIrq(true))]);
            && woken == c.(regs := c.regs.(pc := (c.regs.pc + 1) % 0x1_0000), irq := true, run := Running)
            && (TakesIrq(woken) <==> !c.regs.p.i)
  {
    hide Exec, Load;
    Instructions.WaitSleeps(c);
    TwoActs(c, AStep, AHost(HIrq(true)));
  }

  /** STP: it stays stopped whatever the line does. */
  lemma {:induction false} StopStays(c: Cpu, lines: seq<bool>)
    requires !TakesIrq(c) && Load(c.mem, c.regs.pc) == 0xDB
    ensures var d := RunActs(c, [AStep] + LineMoves(lines));
            d.run == Stopped(StopStp) && d.regs == c.regs.(pc := (c.regs.pc + 1) % 0x1_0000) && d.mem == c.mem
  {
    hide Exec, Load;
    if lines == [] {
      Instructions.StopHalts(c);
      assert [AStep] + LineMoves([]) == [] + [AStep];
      RunOne(c, [], AStep, Running, false);
    } else {
      var n := |lines| - 1;
      StopStays(c, lines[..n]);
      assert [AStep] + LineMoves(lines) == ([AStep] + LineMoves(lines[..n])) + [AHost(HIrq(lines[n]))];
      RunOne(c, [AStep] + LineMoves(lines[..n]), AHost(HIrq(lines[n])), Running, false);
    }
  }

  /** The host raises and lowers the line. */
  function LineMoves(lines: seq<bool>): seq<Act> {
    seq(|lines|, k requires 0 <= k < |lines| => AHost(HIrq(lines[k])))
  }

  lemma TwoActs(c: Cpu, a: Act, a': Act)
    ensures RunActs(c, [a]) == Do(c, a) && RunActs(c, [a, a']) == Do(Do(c, a), a')
  {
    hide Do;
    assert [a][..0] == [] && [a, a'][..1] == [a];
  }

  /** Where a logged run starts: the machine, the state its loop keeps, whether
      WAI waits for the host, and whether every store into a block was seen. */
  datatype Origin = Origin(c0: Cpu, mode: Run, idle: bool, all: bool)

  /** A block dispatch: its place in the run, the machine at its entry, the
      instructions it retired, whether the stores into the block were seen, and
      whether all of it was native code. */
  datatype Entered = Entered(at: nat, cpu: Cpu, n: nat, seen: bool, native: bool)

  /** What a run did: the equivalent interpreter run and the block dispatches. */
  datatype Log = Log(acts: seq<Act>, entries: seq<Entered>)

  /** No dispatch ran past a due interrupt or ran a block with an unseen store. */
  ghost predicate AllSafe(es: seq<Entered>) {
    forall k :: 0 <= k < |es| ==> es[k].seen && NotDue(es[k].cpu, es[k].n)
  }

  /** Physical page $FF had two virtual pages at the start or since a remap. */
  predicate Aliased(all: bool, acts: seq<Act>) {
    !all || exists k :: 0 <= k < |acts| && acts[k].AHost? && acts[k].ev.HRemap? && !UnaliasedTop(acts[k].ev.pages)
  }

  /** Dispatch `k` is part of the run: its instructions are steps of it; unless an
      earlier one was unsafe, it entered from the run's own state, running and
      with no interrupt due; only a block on an aliased physical page $FF may have
      unseen stores; and native code with the line up retires at most 64. */
  ghost predicate GenuineAt(o: Origin, log: Log, k: nat)
    requires k < |log.entries|
  {
    var e := log.entries[k];
    && 1 <= e.n && e.at + e.n <= |log.acts| && log.acts[e.at..e.at + e.n] == Steps(e.n)
    && (AllSafe(log.entries[..k]) ==> e.cpu == RunActs(o.c0, log.acts[..e.at]))
    && e.cpu.run == Running && !TakesIrq(e.cpu) && (e.native && e.cpu.irq ==> e.n <= 64)
    && (!e.seen ==> && e.cpu.mem.paged && Phys(e.cpu.mem, e.cpu.regs.pc) / 256 == 0xFF
                    && Aliased(o.all, log.acts[..e.at]))
  }

  ghost predicate GenuineLog(o: Origin, log: Log) {
    forall k :: 0 <= k < |log.entries| ==> GenuineAt(o, log, k)
  }

  /** The machine `c` is what the logged interpreter run makes of its origin, and
      the run loops allow that run; or one of the logged dispatches was unsafe. */
  ghost predicate Follows(o: Origin, c: Cpu, all: bool, log: Log) {
    && GenuineLog(o, log) && (all || Aliased(o.all, log.acts))
    && (AllSafe(log.entries) ==> c == RunActs(o.c0, log.acts) && Orderly(o.c0, log.acts, o.mode, o.idle))
  }

  /** Progress: the host is called at most four times per instruction executed,
      and `slack` times more. */
  predicate Paced(acts: seq<Act>, slack: nat) {
    |HostsOf(acts)| <= 4 * StepsOf(acts) + slack
  }

  // ------------------------------------------------------------ host events

  /** Every remap of the script comes with the MMU on and marks what it changes. */
  ghost predicate HostOk(paged: bool, pages: seq<byte>, host: seq<HostEvent>)
    decreases |host|
  {
    |pages| == 256 &&
    (host != [] ==>
       if host[0].HRemap?
       then paged && MarksChanges(pages, host[0].pages, host[0].ks) && HostOk(paged, host[0].pages, host[1..])
       else HostOk(paged, pages, host[1..]))
  }

  predicate UnaliasedTop(pages: seq<byte>) {
    |pages| == 256 ==>
      forall p, q :: 0 <= p < 256 && 0 <= q < 256 && pages[p] == 0xFF && pages[q] == 0xFF ==> p == q
  }

  /** The host never raises the interrupt line and never gives physical page $FF
      two virtual pages. */
  predicate Plain(host: seq<HostEvent>) {
    forall k :: 0 <= k < |host| ==> host[k] != HIrq(true) && (host[k].HRemap? ==> UnaliasedTop(host[k].pages))
  }

  /** After a marked remap the surviving blocks still equal memory. */
  lemma RemapCoherent(after: seq<Option<Block>>, before: seq<Option<Block>>, m: Memory, pages': seq<byte>, ks: seq<Mark>,
                      all: bool, all': bool)
    requires SurvivorsUnmarked(after, before, ks) && MarksChanges(m.pages, pages', ks) && (all' ==> all)
    requires TableOk(before) && TagsOk(before, m) && Coherent(before, m, all)
    ensures var m' := m.(pages := pages'); TagsOk(after, m') && Coherent(after, m', all')
  {
    hide Matches, WellBuilt, Marked, Len;
    var m' := m.(pages := pages');
    forall i | 0 <= i < |after| && after[i].Some?
      ensures TagOk(after[i].value, m')
      ensures Seen(after[i].value, m', all') ==> Matches(after[i].value.code, after[i].value.start, m')
    {
      var b := before[i].value;
      assert BlockOk(b, i) && TagOk(b, m);
      assert Phys(m', b.start) == Phys(m, b.start);
      if Seen(b, m', all') {
        assert Seen(b, m, all) && Matches(b.code, b.start, m);
        SamePageMatches(b, m, m');
      }
    }
  }

  // ---------------------------------------------------------------- logging

  /** A longer run keeps what was logged. */
  lemma GenuineLonger(o: Origin, log: Log, more: seq<Act>)
    requires GenuineLog(o, log)
    ensures GenuineLog(o, log.(acts := log.acts + more))
    ensures Aliased(o.all, log.acts) ==> Aliased(o.all, log.acts + more)
  {
    hide RunActs, AllSafe, UnaliasedTop, TakesIrq, Phys;
    var log' := log.(acts := log.acts + more);
    forall k | 0 <= k < |log.entries|
      ensures GenuineAt(o, log', k)
    {
      assert GenuineAt(o, log, k);
      var e := log.entries[k];
      assert log'.acts[e.at..e.at + e.n] == log.acts[e.at..e.at + e.n] && log'.acts[..e.at] == log.acts[..e.at];
    }
    if Aliased(o.all, log.acts) && o.all {
      var k :| 0 <= k < |log.acts| && log.acts[k].AHost? && log.acts[k].ev.HRemap? && !UnaliasedTop(log.acts[k].ev.pages);
      assert log'.acts[k] == log.acts[k];
    }
  }

  lemma FollowsAct(o: Origin, c: Cpu, all: bool, log: Log, a: Act, all': bool)
    requires Follows(o, c, all, log) && Allowed(c, a, o.mode, o.idle)
    requires all && !all' ==> a.AHost? && a.ev.HRemap? && !UnaliasedTop(a.ev.pages)
    ensures Follows(o, Do(c, a), all', log.(acts := log.acts + [a]))
    ensures HostsOf(log.acts + [a]) == HostsOf(log.acts) + match a case AStep => [] case AHost(ev) => [ev]
    ensures StepsOf(log.acts + [a]) == StepsOf(log.acts) + if a == AStep then 1 else 0
  {
    hide Do, Allowed, AllSafe, GenuineLog, HostsOf, StepsOf, RunActs, Orderly, UnaliasedTop;
    GenuineLonger(o, log, [a]);
    RunOne(o.c0, log.acts, a, o.mode, o.idle);
    if all && !all' {
      assert (log.acts + [a])[|log.acts|] == a;
    }
  }

  /** Interrupts are late by less than 64 instructions: in the log of any run, a
      native dispatch in which an interrupt fell due ended that soon. */
  lemma LateBy(o: Origin, log: Log, k: nat, j: nat)
    requires GenuineLog(o, log) && k < |log.entries| && log.entries[k].native
    requires j < log.entries[k].n && TakesIrq(ExecN(log.entries[k].cpu, j))
    ensures 1 <= j && log.entries[k].n - j < 64
  {
    hide RunActs, AllSafe, Aliased, Phys, Exec;
    assert GenuineAt(o, log, k);
    LateDrops(log.entries[k].cpu, log.entries[k].n);
  }

  /** The log after a dispatch, and after the remap of its last store. */
  function Logged(log: Log, c: Cpu, n: nat, seen: bool, native: bool, remapped: bool, host: seq<HostEvent>): Log {
    var acts := log.acts + Steps(n);
    Log(if remapped && host != [] then acts + [AHost(host[0])] else acts,
        log.entries + [Entered(|log.acts|, c, n, seen, native)])
  }

  lemma GenuineMore(o: Origin, log: Log, c: Cpu, n: nat, seen: bool, native: bool)
    requires GenuineLog(o, log) && (AllSafe(log.entries) ==> c == RunActs(o.c0, log.acts))
    requires 1 <= n && c.run == Running && !TakesIrq(c) && (native && c.irq ==> n <= 64)
    requires !seen ==> c.mem.paged && Phys(c.mem, c.regs.pc) / 256 == 0xFF && Aliased(o.all, log.acts)
    ensures GenuineLog(o, Logged(log, c, n, seen, native, false, []))
    ensures Aliased(o.all, log.acts) ==> Aliased(o.all, log.acts + Steps(n))
  {
    hide RunActs, AllSafe, Aliased, TakesIrq, Phys;
    GenuineLonger(o, log, Steps(n));
    var longer, log' := log.(acts := log.acts + Steps(n)), Logged(log, c, n, seen, native, false, []);
    forall k | 0 <= k < |log'.entries|
      ensures GenuineAt(o, log', k)
    {
      if k < |log.entries| {
        assert GenuineAt(o, longer, k);
        assert log'.entries[..k] == longer.entries[..k] && log'.entries[k] == longer.entries[k];
      } else {
        assert log'.entries[..k] == log.entries;
        assert log'.acts[..|log.acts|] == log.acts && log'.acts[|log.acts|..|log.acts| + n] == Steps(n);
      }
    }
  }

  /** A dispatch that refines the interpreter is followed by its log. */
  lemma LogDispatch(o: Origin, b: Block, c: Cpu, c': Cpu, all: bool, all': bool, log: Log, n: nat, seen: bool,
                    remap: Option<StoreRemap>, remapped: bool, host: seq<HostEvent>)
    requires o.mode == Running && Follows(o, c, all, log) && 1 <= n && c.run == Running && !TakesIrq(c)
    requires Refines(b, c, n, c', Ended(ExecN(c, n), remap, remapped), seen)
    requires (seen && NotDue(c, n) && remapped ==> c'.run == Running) && Latency(b, c, n, c')
    requires !seen ==> !all && c.mem.paged && Phys(c.mem, c.regs.pc) / 256 == 0xFF
    requires remapped ==> remap.Some? && host != [] && host[0].HRemap? && host[0].pages == remap.value.pages
                          && |host[0].pages| == 256
    requires all && !all' ==> remapped && !UnaliasedTop(host[0].pages)
    ensures var log' := Logged(log, c, n, seen, NativeOnly(b.code), remapped, host);
            && Follows(o, c', all', log')
            && HostsOf(log'.acts) == (if remapped then HostsOf(log.acts) + [host[0]] else HostsOf(log.acts))
            && StepsOf(log'.acts) == StepsOf(log.acts) + n
  {
    hide HostsOf, StepsOf, NotDue, ExecN, RunsThrough, NativeOnly, IrqSafe, AllSafe, RunActs, Orderly, GenuineLog, Aliased,
      TakesIrq, Phys, UnaliasedTop;
    GenuineMore(o, log, c, n, seen, NativeOnly(b.code));
    RunSteps(o.c0, log.acts, n, o.idle);
    SafeMore(log.entries, Entered(|log.acts|, c, n, seen, NativeOnly(b.code)));
    var log1 := Logged(log, c, n, seen, NativeOnly(b.code), false, []);
    if remapped {
      GenuineLonger(o, log1, [AHost(host[0])]);
      RunOne(o.c0, log1.acts, AHost(host[0]), Running, o.idle);
      if all && !all' {
        AliasedBy(o.all, log1.acts, host[0]);
      }
    }
  }

  lemma AliasedBy(all: bool, acts: seq<Act>, ev: HostEvent)
    requires ev.HRemap? && !UnaliasedTop(ev.pages)
    ensures Aliased(all, acts + [AHost(ev)])
  {
    hide UnaliasedTop;
    assert (acts + [AHost(ev)])[|acts|] == AHost(ev);
  }

  lemma NothingYet(o: Origin)
    ensures Follows(o, o.c0, o.all, Log([], [])) && HostsOf([]) == [] && StepsOf([]) == 0
  {}

  lemma SafeMore(es: seq<Entered>, e: Entered)
    ensures AllSafe(es + [e]) <==> AllSafe(es) && e.seen && NotDue(e.cpu, e.n)
  {
    hide NotDue;
    var more := es + [e];
    assert more[|es|] == e && forall k :: 0 <= k < |es| ==> more[k] == es[k];
  }

  // ------------------------------------------------------------- plain hosts

  /** With the line low nothing falls due. */
  lemma LowIsSafe(c: Cpu, n: nat)
    requires !c.irq
    ensures NotDue(c, n)
  {
    hide ExecN;
    forall j: nat | j < n
      ensures !ExecN(c, j).irq
    {
      ExecNKeepsLow(c, j);
    }
  }

  /** A host that never raises the line leaves it low. */
  lemma {:induction false} RunLow(c: Cpu, acts: seq<Act>)
    requires !c.irq && AHost(HIrq(true)) !in acts
    ensures !RunActs(c, acts).irq
  {
    hide Exec;
    if acts != [] {
      var before := acts[..|acts| - 1];
      RunLow(c, before);
      ExecKeepsLow(RunActs(c, before));
    }
  }

  /** The host events of a run are events of its host. */
  lemma {:induction false} EventsAreHosts(acts: seq<Act>, k: nat)
    requires k < |acts| && acts[k].AHost?
    ensures acts[k].ev in HostsOf(acts)
  {
    if k < |acts| - 1 {
      EventsAreHosts(acts[..|acts| - 1], k);
    }
  }

  /** Every dispatch of a run with a plain host is safe. */
  lemma {:induction false} PlainSafe(o: Origin, log: Log, k: nat)
    requires GenuineLog(o, log) && o.all && !o.c0.irq && Plain(HostsOf(log.acts)) && k <= |log.entries|
    ensures AllSafe(log.entries[..k])
  {
    hide HostsOf, RunActs, UnaliasedTop, NotDue, TakesIrq, Phys;
    if k > 0 {
      PlainSafe(o, log, k - 1);
      assert GenuineAt(o, log, k - 1);
      var e := log.entries[k - 1];
      forall j | 0 <= j < |log.acts| && log.acts[j].AHost?
        ensures log.acts[j].ev in HostsOf(log.acts)
      {
        EventsAreHosts(log.acts, j);
      }
      assert e.seen;
      assert forall j :: 0 <= j < e.at ==> log.acts[..e.at][j] == log.acts[j];
      RunLow(o.c0, log.acts[..e.at]);
      LowIsSafe(e.cpu, e.n);
      SafeMore(log.entries[..k - 1], e);
      assert log.entries[..k] == log.entries[..k - 1] + [e];
    }
  }

  lemma PlainRun(o: Origin, c: Cpu, all: bool, log: Log, host: seq<HostEvent>, rest: seq<HostEvent>)
    requires Follows(o, c, all, log) && HostsOf(log.acts) + rest == host
    ensures !o.c0.irq && Plain(host) && o.all ==> AllSafe(log.entries)
  {
    hide HostsOf, UnaliasedTop, AllSafe, RunActs, Orderly, GenuineLog, Aliased;
    if !o.c0.irq && Plain(host) && o.all {
      assert forall k :: 0 <= k < |HostsOf(log.acts)| ==> HostsOf(log.acts)[k] == host[k];
      PlainSafe(o, log, |log.entries|);
      assert log.entries[..|log.entries|] == log.entries;
    }
  }

  lemma AliasedMap(m: Memory, pages: seq<byte>)
    requires |pages| == 256 && m.pages == pages && m.paged
    ensures TopPageUnaliased(m) <==> UnaliasedTop(pages)
  {}

  /** Only a block on physical page $FF can have unseen stores. */
  lemma UnseenIsTop(b: Block, m: Memory, all: bool)
    requires WellBuilt(b) && !Seen(b, m, all)
    ensures !all && m.paged && Phys(m, b.start) / 256 == 0xFF
  {
    hide Decoded, Straight;
    LenPositive(b);
    PhysOnPage(m, b.start, b.start + Len(b) - 1);
  }

  class System {
    const emu: Emulator
    const mmu: Mmu
    /** idle_wait_enabled. */
    const idle: bool

    constructor (c: Cpu, wait: bool)
      ensures Ready() && emu.cpu == c && emu.jitRequested && idle == wait && emu.all == TopPageUnaliased(c.mem)
    {
      emu := new Emulator(c);
      mmu := new Mmu();
      idle := wait;
      new;
      hide emu.Settled, Ready, TopPageUnaliased, Agrees;
      SetUp();
    }

    /** rk65c02_mmu_set for a machine that starts with a page map. */
    method SetUp()
      requires emu.Settled() && mmu.Valid() && mmu.dirty == {} && !mmu.enabled && mmu.changed != emu.jit.mutablePage
      modifies mmu, mmu.tlb, mmu.changed, emu.Parts()
      ensures Ready()
    {
      hide TableOk, TagsOk, Coherent, Count, Agrees, TopPageUnaliased, CodeCache.Valid;
      if emu.cpu.mem.paged {
        var _ := mmu.Configure(Some(PageCallback(emu.cpu.mem.pages)), true, emu.jit, false);
        emu.jit.Facts();
        EmptySettled(emu.jit.blocks[..], emu.jit.blocks[..], emu.cpu.mem, emu.all);
      }
    }

    ghost function State(): set<object> {
      {emu as object, mmu, mmu.tlb, mmu.changed} + emu.Parts()
    }

    /** The MMU translates as the page map says. */
    ghost predicate Linked()
      reads emu`cpu, mmu
    {
      && mmu.changed != emu.jit.mutablePage
      && mmu.enabled == emu.cpu.mem.paged
      && (mmu.enabled ==> mmu.translate == Some(PageCallback(emu.cpu.mem.pages)))
    }

    /** At a dispatch point. */
    ghost predicate Ready()
      reads emu, emu.jit, emu.jit.Index(), mmu, mmu.tlb
    {
      emu.Settled() && mmu.Valid() && mmu.dirty == {} && Linked()
    }

    /** The script still fits the page map. */
    ghost predicate Fits(host: seq<HostEvent>)
      reads emu`cpu
    {
      HostOk(emu.cpu.mem.paged, emu.cpu.mem.pages, host)
    }

    /** A host callback that does the next event of the script. */
    method HostActs(host: seq<HostEvent>)
      requires Ready() && host != [] && Fits(host)
      modifies emu`cpu, emu`all, mmu, mmu.tlb, mmu.changed, emu.Parts()
      ensures Ready() && emu.cpu == HostDo(old(emu.cpu), host[0]) && Fits(host[1..])
      ensures var c := old(emu.cpu);
              match host[0]
              case HQuiet => emu.cpu == c
              case HStop => emu.cpu == c.(run := Stopped(StopHost))
              case HIrq(line) =>
                if line && c.run == Stopped(StopWai) then emu.cpu == c.(irq := true, run := Running)
                else emu.cpu == c.(irq := line)
              case HRemap(pages, _) => |pages| == 256 && emu.cpu == c.(mem := c.mem.(pages := pages))
      ensures emu.jit.useJit == old(emu.jit.useJit)
      ensures old(emu.all) && !emu.all ==> host[0].HRemap? && !UnaliasedTop(host[0].pages)
    {
      hide TableOk, TagsOk, Coherent, Count, Agrees, TopPageUnaliased, MarksChanges, SurvivorsUnmarked, UnaliasedTop,
        CodeCache.Valid;
      match host[0] {
        case HQuiet =>
        case HStop => emu.cpu := emu.cpu.(run := Stopped(StopHost));
        case HIrq(line) =>
          var wake := line && emu.cpu.run == Stopped(StopWai);
          emu.cpu := emu.cpu.(irq := line, run := if wake then Running else emu.cpu.run);
        case HRemap(pages, ks) => Remap(pages, ks);
      }
    }

    /** A remap by the host between instructions. */
    method Remap(pages: seq<byte>, ks: seq<Mark>)
      requires Ready() && emu.cpu.mem.paged && MarksChanges(emu.cpu.mem.pages, pages, ks)
      modifies emu`cpu, emu`all, mmu, mmu.tlb, mmu.changed, emu.Parts()
      ensures Ready() && |pages| == 256 && emu.cpu == Remapped(old(emu.cpu), pages)
      ensures emu.jit.useJit == old(emu.jit.useJit)
      ensures old(emu.all) && !emu.all ==> !UnaliasedTop(pages)
    {
      hide TableOk, TagsOk, Coherent, Count, Agrees, TopPageUnaliased, SurvivorsUnmarked, Marked, UnaliasedTop,
        CodeCache.Valid;
      ghost var m, bs, all := emu.cpu.mem, emu.jit.blocks[..], emu.all;
      emu.TableValid();
      forall p: byte | !Marked(ks, p)
        ensures SameOnPage(PageCallback(m.pages), PageCallback(pages), p)
      {
        SamePages(m.pages, pages, p);
      }
      var deferred := mmu.Update(PageCallback(pages), ks, emu.jit, false);
      emu.cpu := Remapped(emu.cpu, pages);
      emu.all := all && TopPageUnaliased(emu.cpu.mem);
      RemapCoherent(emu.jit.blocks[..], bs, m, pages, ks, all, emu.all);
      if !TopPageUnaliased(emu.cpu.mem) {
        AliasedMap(emu.cpu.mem, pages);
      }
    }

    /** A guest access through the TLB reaches the byte of the page map, whatever
        remaps, flushes and fills came before. */
    method Translate(v: word, acc: Access) returns (o: Outcome)
      requires Ready() && mmu.enabled
      modifies mmu.tlb
      ensures Ready() && o == Translated(Phys(emu.cpu.mem, v))
    {
      hide TableOk, TagsOk, Coherent, Count, Agrees, TopPageUnaliased, PageUniform, Direct;
      PageCallbackUniform(emu.cpu.mem.pages);
      o := mmu.TranslateAddr(v, acc);
    }

    /** rk65c02_poll_host_controls: a stop request always counts; the tick is only
        called while the machine runs or steps. */
    method Poll(host: seq<HostEvent>, mode: Run, ghost o: Origin, ghost log: Log)
      returns (rest: seq<HostEvent>, ghost log': Log)
      requires Ready() && Follows(o, emu.cpu, emu.all, log) && Fits(host) && mode == o.mode && mode in {Running, Stepping}
      modifies emu`cpu, emu`all, mmu, mmu.tlb, mmu.changed, emu.Parts()
      ensures Ready() && Follows(o, emu.cpu, emu.all, log') && log'.entries == log.entries && Fits(rest)
      ensures HostsOf(log'.acts) + rest == HostsOf(log.acts) + host && StepsOf(log'.acts) == StepsOf(log.acts)
      ensures |HostsOf(log'.acts)| <= |HostsOf(log.acts)| + 1 && |rest| <= |host|
      ensures host != [] && (old(emu.cpu).run == mode || host[0].HStop?) ==> rest == host[1..]
      ensures host != [] && host[0].HStop? ==> emu.cpu.run == Stopped(StopHost)
      ensures host == [] || (old(emu.cpu).run != mode && !host[0].HStop?) ==> emu.cpu == old(emu.cpu) && rest == host
      ensures old(emu.cpu).run == mode ==> emu.cpu.run == mode || emu.cpu.run == Stopped(StopHost)
      ensures old(emu.cpu).run != mode ==> emu.cpu.run != mode
      ensures emu.jit.useJit == old(emu.jit.useJit)
      ensures StatusOk(old(emu.cpu).regs.p) ==> StatusOk(emu.cpu.regs.p)
    {
      hide Follows, Ready, HostOk, HostsOf, StepsOf, StatusOk;
      rest, log' := host, log;
      if host != [] && (emu.cpu.run == mode || host[0].HStop?) {
        rest, log' := Call(host, o, log);
      }
    }

    /** rk65c02_maybe_wait_on_idle: a machine asleep in WAI waits for the host. */
    method WaitOnIdle(host: seq<HostEvent>, ghost o: Origin, ghost log: Log)
      returns (rest: seq<HostEvent>, ghost log': Log)
      requires Ready() && Follows(o, emu.cpu, emu.all, log) && Fits(host) && o.idle == idle
      modifies emu`cpu, emu`all, mmu, mmu.tlb, mmu.changed, emu.Parts()
      ensures Ready() && Follows(o, emu.cpu, emu.all, log') && log'.entries == log.entries && Fits(rest)
      ensures HostsOf(log'.acts) + rest == HostsOf(log.acts) + host && StepsOf(log'.acts) == StepsOf(log.acts)
      ensures |HostsOf(log'.acts)| <= |HostsOf(log.acts)| + 1 && |rest| <= |host|
      ensures old(emu.cpu).run != Stopped(StopWai) ==> emu.cpu == old(emu.cpu) && rest == host && log' == log
      ensures idle && old(emu.cpu).run == Stopped(StopWai) && host != [] ==>
                rest == host[1..] && (host[0] == HIrq(true) ==> emu.cpu.run == Running && emu.cpu.irq)
      ensures emu.jit.useJit == old(emu.jit.useJit)
      ensures StatusOk(old(emu.cpu).regs.p) ==> StatusOk(emu.cpu.regs.p)
    {
      hide Follows, Ready, HostOk, HostsOf, StepsOf, StatusOk;
      rest, log' := host, log;
      if idle && emu.cpu.run == Stopped(StopWai) && host != [] {
        rest, log' := Call(host, o, log);
      }
    }

    /** The host acts, and its event is logged. */
    method Call(host: seq<HostEvent>, ghost o: Origin, ghost log: Log)
      returns (rest: seq<HostEvent>, ghost log': Log)
      requires Ready() && Follows(o, emu.cpu, emu.all, log) && Fits(host) && host != []
      requires Allowed(emu.cpu, AHost(host[0]), o.mode, o.idle)
      modifies emu`cpu, emu`all, mmu, mmu.tlb, mmu.changed, emu.Parts()
      ensures Ready() && Follows(o, emu.cpu, emu.all, log') && log'.entries == log.entries && Fits(rest)
      ensures emu.cpu == HostDo(old(emu.cpu), host[0]) && rest == host[1..]
      ensures HostsOf(log'.acts) + rest == HostsOf(log.acts) + host && StepsOf(log'.acts) == StepsOf(log.acts)
      ensures |HostsOf(log'.acts)| == |HostsOf(log.acts)| + 1
      ensures emu.jit.useJit == old(emu.jit.useJit)
      ensures StatusOk(old(emu.cpu).regs.p) ==> StatusOk(emu.cpu.regs.p)
    {
      hide Follows, Ready, Fits, HostsOf, StepsOf, Allowed, StatusOk, UnaliasedTop;
      ghost var c, all := emu.cpu, emu.all;
      HostActs(host);
      FollowsAct(o, c, all, log, AHost(host[0]), emu.all);
      rest := host[1..];
      log' := log.(acts := log.acts + [AHost(host[0])]);
    }

    /** One interpreted instruction. */
    method Interpret(ghost o: Origin, ghost log: Log) returns (ghost log': Log)
      requires Ready() && Follows(o, emu.cpu, emu.all, log) && emu.cpu.run == o.mode
      modifies emu`cpu, emu.Parts()
      ensures Ready() && Follows(o, emu.cpu, emu.all, log') && log' == log.(acts := log.acts + [AStep])
      ensures emu.cpu == Exec(old(emu.cpu)) && SameLayout(old(emu.cpu).mem, emu.cpu.mem)
      ensures HostsOf(log'.acts) == HostsOf(log.acts) && StepsOf(log'.acts) == StepsOf(log.acts) + 1
      ensures emu.jit.useJit == old(emu.jit.useJit)
      ensures StatusOk(old(emu.cpu).regs.p) ==> StatusOk(emu.cpu.regs.p)
    {
      hide Exec, Follows, HostsOf, StepsOf, emu.Settled, StatusOk, PageCallback, Agrees;
      FollowsAct(o, emu.cpu, emu.all, log, AStep, emu.all);
      emu.ExecOne();
      log' := log.(acts := log.acts + [AStep]);
    }

    /** The host's next event, if it is a remap, may also come from a device while
        a store of the block is made. */
    method ArmStore(host: seq<HostEvent>) returns (remap: Option<StoreRemap>)
      requires Ready() && Fits(host)
      ensures remap.Some? ==> && host != [] && host[0].HRemap? && |host[0].pages| == 256
                              && remap.value.pages == host[0].pages && emu.CanRemap(mmu, remap.value)
    {
      hide emu.Settled, Mmu.Valid, MarksChanges;
      var inStore: bool, at: nat := *, *;
      remap := None;
      if inStore && host != [] && host[0].HRemap? && host[0].ks != [] {
        remap := Some(StoreRemap(at, host[0].pages, host[0].ks));
        MarkedLength(emu.cpu.mem.pages, host[0].pages, host[0].ks);
      }
    }

    /** Run the block at PC natively and settle what it left behind. */
    method Enter(b: Block, disabled: bool, host: seq<HostEvent>, ghost o: Origin, ghost log: Log)
      returns (disabled': bool, rest: seq<HostEvent>, ghost log': Log)
      requires Ready() && Follows(o, emu.cpu, emu.all, log) && Fits(host) && emu.jit.useJit && emu.cpu.run == Running == o.mode
      requires emu.jit.blocks[emu.cpu.regs.pc] == Some(b) && WellBuilt(b) && b.start == emu.cpu.regs.pc && !TakesIrq(emu.cpu)
      modifies State()
      ensures Turned(old(emu.cpu), o, host, log, rest, log')
    {
      hide Follows, HostsOf, StepsOf, emu.Settled, Mmu.Valid, HostOk, Refines, NotDue, Len, ExecN, PageCallback, StatusOk,
        MarksChanges, WellBuilt, TopPageUnaliased, Logged, Ended, UnaliasedTop, Seen, TakesIrq, Phys;
      ghost var c, all, seen := emu.cpu, emu.all, Seen(b, emu.cpu.mem, emu.all);
      if !seen {
        UnseenIsTop(b, c.mem, all);
      }
      var remap := ArmStore(host);
      var n, remapped;
      disabled', n, remapped := emu.Dispatch(b, disabled, mmu, remap);
      log' := Logged(log, c, n, seen, NativeOnly(b.code), remapped, host);
      EndedLayout(c, remap, remapped);
      rest := host;
      if remapped {
        rest := host[1..];
        RestFits(c.mem.paged, c.mem.pages, host);
        if !TopPageUnaliased(emu.cpu.mem) {
          AliasedMap(emu.cpu.mem, host[0].pages);
        }
      }
      LogDispatch(o, b, c, emu.cpu, all, emu.all, log, n, seen, remap, remapped, host);
    }

    /** What a turn of the dispatch loop gives: at least one instruction of the
        followed run, and at most one host event, made by a store. */
    ghost predicate Turned(c: Cpu, o: Origin, host: seq<HostEvent>, log: Log, rest: seq<HostEvent>, log': Log)
      reads emu, emu.jit, emu.jit.Index(), mmu, mmu.tlb
    {
      && Ready() && Follows(o, emu.cpu, emu.all, log') && Fits(rest)
      && HostsOf(log'.acts) + rest == HostsOf(log.acts) + host && |rest| <= |host|
      && StepsOf(log'.acts) > StepsOf(log.acts) && |HostsOf(log'.acts)| <= |HostsOf(log.acts)| + 1
      && (StatusOk(c.regs.p) ==> StatusOk(emu.cpu.regs.p))
    }

    /** One turn of the dispatch loop after the host was polled: an interpreted
        instruction when an interrupt is due, the page was demoted or no block
        can be built, a block otherwise. */
    method Turn(disabled: bool, host: seq<HostEvent>, ghost o: Origin, ghost log: Log)
      returns (disabled': bool, native: bool, rest: seq<HostEvent>, ghost log': Log)
      requires Ready() && Follows(o, emu.cpu, emu.all, log) && Fits(host) && emu.jit.useJit && emu.cpu.run == Running == o.mode
      modifies State()
      ensures Turned(old(emu.cpu), o, host, log, rest, log')
      ensures native <==> && !TakesIrq(old(emu.cpu)) && !old(emu.jit.mutablePage[emu.cpu.regs.pc / 256])
                          && (old(emu.jit.blocks[emu.cpu.regs.pc]).Some? || FirstFits(old(emu.cpu)))
      ensures !native ==> emu.cpu == Exec(old(emu.cpu)) && rest == host
    {
      hide Follows, HostsOf, StepsOf, Coherent, TagsOk, Mmu.Valid, HostOk, PageCallback, StatusOk, TableOk, WellBuilt,
        TopPageUnaliased, CodeCache.Valid, Exec, Fetch;
      disabled', native := disabled, false;
      emu.TableValid();
      if TakesIrq(emu.cpu) || emu.jit.mutablePage[emu.cpu.regs.pc / 256] {
        log' := Interpret(o, log);
        rest := host;
        return;
      }
      var found := emu.Lookup();
      if found.None? {
        log' := Interpret(o, log);
        rest := host;
      } else {
        native := true;
        emu.TableValid();
        BlockAt(emu.jit.blocks[..], emu.cpu.regs.pc);
        disabled', rest, log' := Enter(found.value, disabled, host, o, log);
      }
    }

    /** The interpreter loop: poll, execute, poll. */
    method RunInterpreted(host: seq<HostEvent>, ghost slack: nat, ghost o: Origin, ghost log: Log)
      returns (rest: seq<HostEvent>, ghost log': Log)
      requires Ready() && Follows(o, emu.cpu, emu.all, log) && Fits(host) && Paced(log.acts, slack) && o.mode == Running && o.idle == idle
      modifies State()
      ensures Ready() && Follows(o, emu.cpu, emu.all, log') && Fits(rest) && log'.entries == log.entries
      ensures HostsOf(log'.acts) + rest == HostsOf(log.acts) + host && Paced(log'.acts, slack + 1) && |rest| <= |host|
      ensures emu.cpu.run == Running ==> rest == []
      ensures StatusOk(old(emu.cpu).regs.p) ==> StatusOk(emu.cpu.regs.p)
    {
      hide Follows, Ready, HostOk, HostsOf, StepsOf, StatusOk, Exec;
      rest, log' := host, log;
      while emu.cpu.run == Running && rest != []
        invariant Ready() && Follows(o, emu.cpu, emu.all, log') && Fits(rest) && log'.entries == log.entries
        invariant HostsOf(log'.acts) + rest == HostsOf(log.acts) + host && |rest| <= |host|
        invariant Paced(log'.acts, if emu.cpu.run == Running then slack else slack + 1)
        invariant StatusOk(old(emu.cpu).regs.p) ==> StatusOk(emu.cpu.regs.p)
        decreases |rest|
      {
        rest, log' := Poll(rest, Running, o, log');
        if emu.cpu.run != Running {
          rest, log' := WaitOnIdle(rest, o, log');
        } else {
          log' := Interpret(o, log');
          rest, log' := Poll(rest, Running, o, log');
          if emu.cpu.run != Running {
            rest, log' := WaitOnIdle(rest, o, log');
          }
        }
      }
    }

    /** rk65c02_run_jit after its entry code. */
    method RunJit(host: seq<HostEvent>, ghost o: Origin) returns (rest: seq<HostEvent>, ghost log: Log)
      requires Ready() && Fits(host) && o == Origin(emu.cpu, Running, idle, emu.all)
      modifies State()
      ensures Ready() && Follows(o, emu.cpu, emu.all, log) && Fits(rest)
      ensures HostsOf(log.acts) + rest == host && Paced(log.acts, 2) && (emu.cpu.run == Running ==> rest == [])
      ensures StatusOk(o.c0.regs.p) ==> StatusOk(emu.cpu.regs.p)
    {
      hide Follows, Ready, HostOk, HostsOf, StepsOf, StatusOk, Exec;
      rest, log := host, Log([], []);
      NothingYet(o);
      var disabled, done := false, false;
      while emu.cpu.run == Running && rest != [] && !done
        invariant Ready() && Follows(o, emu.cpu, emu.all, log) && Fits(rest)
        invariant HostsOf(log.acts) + rest == host
        invariant Paced(log.acts, if emu.cpu.run == Running && !done then 0 else 2)
        invariant done ==> emu.cpu.run == Running ==> rest == []
        invariant StatusOk(o.c0.regs.p) ==> StatusOk(emu.cpu.regs.p)
        decreases |rest|
      {
        rest, log := Poll(rest, Running, o, log);
        if emu.cpu.run != Running {
          rest, log := WaitOnIdle(rest, o, log);
        } else if !emu.jit.useJit {
          rest, log := RunInterpreted(rest, 1, o, log);
          done := true;
        } else {
          var native;
          disabled, native, rest, log := Turn(disabled, rest, o, log);
          if native {
            rest, log := Poll(rest, Running, o, log);
            if emu.cpu.run != Running {
              rest, log := WaitOnIdle(rest, o, log);
            }
          }
        }
      }
    }

    /** The entry of a run: the run state, use_jit as requested and, for a JIT
        run, the per-run policy state cleared. */
    method Begin(run: Run)
      requires Ready()
      modifies emu`cpu, emu.Parts()
      ensures Ready() && emu.cpu == old(emu.cpu).(run := run)
      ensures emu.jit.useJit == if run == Running then emu.jitRequested else old(emu.jit.useJit)
      ensures emu.jit.blocks[..] == old(emu.jit.blocks[..])
      ensures run == Running && emu.jitRequested ==>
                emu.jit.events == 0 && forall p :: 0 <= p < 256 ==> emu.jit.pageEvents[p] == 0 && !emu.jit.mutablePage[p]
    {
      hide TopPageUnaliased, Coherent, TagsOk, TableOk, Count, Agrees, CodeCache.Valid;
      emu.cpu := emu.cpu.(run := run);
      if run == Running {
        emu.jit.useJit := emu.jitRequested;
        if emu.jit.useJit {
          emu.jit.StartRun();
        }
      }
    }

    /** rk65c02_start. Runs until the machine stops or the host's script is used
        up; `log` is the equivalent interpreter run. */
    method Start(host: seq<HostEvent>) returns (rest: seq<HostEvent>, ghost log: Log)
      requires Ready() && Fits(host)
      modifies State()
      ensures Ready() && Follows(Origin(old(emu.cpu).(run := Running), Running, idle, old(emu.all)), emu.cpu, emu.all, log)
      ensures HostsOf(log.acts) + rest == host && Paced(log.acts, 3) && (emu.cpu.run == Running ==> rest == [])
      ensures !old(emu.cpu).irq && Plain(host) && old(emu.all) ==> AllSafe(log.entries)
      ensures StatusOk(old(emu.cpu).regs.p) ==> StatusOk(emu.cpu.regs.p)
    {
      hide Follows, Ready, HostOk, HostsOf, StepsOf, AllSafe, Plain, StatusOk, Exec;
      Begin(Running);
      ghost var o := Origin(emu.cpu, Running, idle, emu.all);
      if emu.jit.useJit {
        rest, log := RunJit(host, o);
      } else {
        NothingYet(o);
        rest, log := RunInterpreted(host, 0, o, Log([], []));
      }
      rest, log := Poll(rest, Running, o, log);
      PlainRun(o, emu.cpu, emu.all, log, host, rest);
    }

    /** rk65c02_step: exactly `steps` interpreted instructions unless something
        stops the machine, never a block; the cache stays coherent all the same. */
    method Step(steps: word, host: seq<HostEvent>) returns (rest: seq<HostEvent>, ghost log: Log)
      requires Ready() && Fits(host) && |host| > 2 * steps
      modifies State()
      ensures Ready() && HostsOf(log.acts) + rest == host && log.entries == []
      ensures var c := RunActs(old(emu.cpu).(run := Stepping), log.acts);
              && emu.cpu == (if c.run == Stepping then c.(run := Stopped(StopStepped)) else c)
              && Orderly(old(emu.cpu).(run := Stepping), log.acts, Stepping, idle)
              && StepsOf(log.acts) <= steps && (c.run == Stepping ==> StepsOf(log.acts) == steps)
      ensures StatusOk(old(emu.cpu).regs.p) ==> StatusOk(emu.cpu.regs.p)
    {
      hide RunActs, Orderly, Ready, HostOk, HostsOf, StepsOf, StatusOk, Exec, GenuineLog, Aliased;
      Begin(Stepping);
      ghost var o := Origin(emu.cpu, Stepping, idle, emu.all);
      NothingYet(o);
      rest, log := host, Log([], []);
      var i := 0;
      while emu.cpu.run == Stepping && i < steps
        invariant 0 <= i <= steps && (emu.cpu.run == Stepping ==> |rest| > 2 * (steps - i)) && StepsOf(log.acts) == i
        invariant Ready() && Follows(o, emu.cpu, emu.all, log) && Fits(rest)
        invariant HostsOf(log.acts) + rest == host && log.entries == []
        invariant StatusOk(o.c0.regs.p) ==> StatusOk(emu.cpu.regs.p)
        decreases emu.cpu.run == Stepping, steps - i
      {
        rest, log := Poll(rest, Stepping, o, log);
        if emu.cpu.run == Stepping {
          log := Interpret(o, log);
          rest, log := Poll(rest, Stepping, o, log);
          i := i + 1;
        }
      }
      rest, log := Poll(rest, Stepping, o, log);
      if emu.cpu.run == Stepping {
        Begin(Stopped(StopStepped));
      }
    }
  }

  /** The instruction at PC does not cross a page. */
  predicate FirstFits(c: Cpu) {
    c.regs.pc % 256 + Fetch(c.mem, c.regs.pc).def.size <= 256
  }

  lemma MarkedLength(pages: seq<byte>, pages': seq<byte>, ks: seq<Mark>)
    requires MarksChanges(pages, pages', ks)
    ensures |pages'| == 256
  {}

  /** The rest of the script fits the map its first event leaves. */
  lemma RestFits(paged: bool, pages: seq<byte>, host: seq<HostEvent>)
    requires HostOk(paged, pages, host) && host != [] && host[0].HRemap?
    ensures HostOk(paged, host[0].pages, host[1..])
  {}

  lemma EndedLayout(c: Cpu, remap: Option<StoreRemap>, remapped: bool)
    ensures Ended(c, remap, remapped).mem.paged == c.mem.paged
    ensures Ended(c, remap, remapped).mem.pages ==
            if remapped && remap.Some? && |remap.value.pages| == 256 then remap.value.pages else c.mem.pages
  {}
}
