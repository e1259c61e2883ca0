/** The code cache: the table of live blocks and the reference counters that
    index it. */
module Cache {
  import opened Machine
  import opened Isa
  import opened Blocks

  // --------------------------------------------------------------- counting

  /** What a reference counter counts blocks by. */
  datatype Key =
    | LiveKey | AddrKey(a: word) | PageKey(p: byte) | CodeKey(p: byte)
    | PhysAddrKey(a: word) | PhysPageKey(p: byte) | PhysKey

  predicate Hits(b: Block, k: Key) {
    match k
    case LiveKey => true
    case AddrKey(a) => Contains(b.start, b.end, a)
    case PageKey(p) => OverlapsPage(b.start, b.end, p)
    case CodeKey(p) => b.start / 256 == p
    case PhysAddrKey(a) => b.tag.ByteTag? && b.tag.start <= a < b.tag.start + SpanLen(b)
    case PhysPageKey(p) => b.tag == PageTag(p)
    case PhysKey => !b.tag.NoTag?
  }

  predicate SlotHits(s: Option<Block>, k: Key) {
    s.Some? && Hits(s.value, k)
  }

  function One(hit: bool): nat {
    if hit then 1 else 0
  }

  /** How many live blocks a counter should show. */
  function Count(bs: seq<Option<Block>>, k: Key): nat {
    if bs == [] then 0 else Count(bs[..|bs| - 1], k) + One(SlotHits(bs[|bs| - 1], k))
  }

  lemma {:induction false} CountUpdate(bs: seq<Option<Block>>, i: nat, s: Option<Block>, k: Key)
    requires i < |bs|
    ensures Count(bs[i := s], k) + One(SlotHits(bs[i], k)) == Count(bs, k) + One(SlotHits(s, k))
  {
    hide SlotHits;
    var n := |bs| - 1;
    if i == n {
      assert bs[i := s][..n] == bs[..n];
    } else {
      assert bs[i := s][..n] == bs[..n][i := s];
      CountUpdate(bs[..n], i, s, k);
    }
  }

  /** A counter is zero exactly when a full scan finds no block. */
  lemma {:induction false} CountZero(bs: seq<Option<Block>>, k: Key)
    ensures Count(bs, k) == 0 <==> forall i :: 0 <= i < |bs| ==> !SlotHits(bs[i], k)
  {
    hide SlotHits;
    if bs != [] {
      CountZero(bs[..|bs| - 1], k);
    }
  }

  lemma {:induction false} CountLive(bs: seq<Option<Block>>, k: Key)
    ensures Count(bs, k) <= Count(bs, LiveKey)
  {
    if bs != [] {
      CountLive(bs[..|bs| - 1], k);
    }
  }

  // ------------------------------------------------------- counter arithmetic

  /** One counter update: clamp at zero, then the uint16_t cast. */
  function Bumped(x: nat, add: bool): nat {
    var next := if add then x + 1 else x - 1;
    (if next < 0 then 0 else next) % 0x1_0000
  }

  /** How far `a` is above `start`, around the 64K circle. */
  function Ahead(start: word, a: word): nat {
    (a - start) % 0x1_0000
  }

  lemma ContainsIsAhead(start: word, end: word, a: word)
    requires start != end
    ensures Contains(start, end, a) <==> Ahead(start, a) < Ahead(start, end)
  {}

  lemma OverlapGrows(start: word, addr: word, p: byte)
    requires addr != start && (addr + 1) % 0x1_0000 != start
    ensures OverlapsPage(start, (addr + 1) % 0x1_0000, p) <==> OverlapsPage(start, addr, p) || addr / 256 == p
  {}

  lemma OverlapStarts(start: word, p: byte)
    ensures OverlapsPage(start, (start + 1) % 0x1_0000, p) <==> start / 256 == p
  {}

  lemma AheadStep(start: word, end: word, addr: word)
    requires addr != end && start != end && Ahead(start, addr) < Ahead(start, end)
    ensures Ahead(start, (addr + 1) % 0x1_0000) == Ahead(start, addr) + 1
    ensures (addr + 1) % 0x1_0000 != start
  {}

  lemma AheadUnique(start: word, addr: word, a: word)
    requires Ahead(start, a) == Ahead(start, addr)
    ensures a == addr
  {}

  lemma AheadStart(start: word, end: word)
    ensures Ahead(start, start) == 0 <= Ahead(start, end)
  {}

  /** Only `addr` itself is as far ahead as `addr`. */
  lemma AheadOnly(start: word, addr: word)
    ensures forall a: word :: Ahead(start, a) == Ahead(start, addr) ==> a == addr
  {
    forall a: word | Ahead(start, a) == Ahead(start, addr)
      ensures a == addr
    {
      AheadUnique(start, addr, a);
    }
  }

  /** The walk over the bytes of a span: bumps each address counter and notes
      the pages seen. */
  method BumpSpan(refs: array<nat>, start: word, end: word, add: bool) returns (seen: seq<bool>)
    requires refs.Length == 0x1_0000
    modifies refs
    ensures |seen| == 256 && forall p :: 0 <= p < 256 ==> seen[p] == OverlapsPage(start, end, p)
    ensures forall a :: 0 <= a < 0x1_0000 ==>
              refs[a] == if Contains(start, end, a) then Bumped(old(refs[a]), add) else old(refs[a])
  {
    if start == end {
      seen := seq(256, _ => true);
      BumpAll(refs, add);
    } else {
      seen := BumpArc(refs, start, end, add);
      forall a: word
        ensures Contains(start, end, a) <==> Ahead(start, a) < Ahead(start, end)
      {
        ContainsIsAhead(start, end, a);
      }
    }
  }

  method BumpAll(refs: array<nat>, add: bool)
    modifies refs
    ensures forall a :: 0 <= a < refs.Length ==> refs[a] == Bumped(old(refs[a]), add)
  {
    hide Bumped;
    for i := 0 to refs.Length
      invariant forall a :: 0 <= a < i ==> refs[a] == Bumped(old(refs[a]), add)
      invariant forall a :: i <= a < refs.Length ==> refs[a] == old(refs[a])
    {
      refs[i] := Bumped(refs[i], add);
    }
  }

  method BumpArc(refs: array<nat>, start: word, end: word, add: bool) returns (seen: seq<bool>)
    requires refs.Length == 0x1_0000 && start != end
    modifies refs
    ensures |seen| == 256 && forall p :: 0 <= p < 256 ==> seen[p] == OverlapsPage(start, end, p)
    ensures forall a :: 0 <= a < 0x1_0000 ==>
              refs[a] == if Ahead(start, a) < Ahead(start, end) then Bumped(old(refs[a]), add) else old(refs[a])
  {
    hide Bumped, OverlapsPage, Ahead;
    AheadStart(start, end);
    seen := seq(256, _ => false);
    var addr: word := start;
    while addr != end
      invariant |seen| == 256 && 0 <= Ahead(start, addr) <= Ahead(start, end)
      invariant addr == start ==> forall p :: 0 <= p < 256 ==> !seen[p]
      invariant addr != start ==> forall p :: 0 <= p < 256 ==> seen[p] == OverlapsPage(start, addr, p)
      invariant forall a :: 0 <= a < 0x1_0000 ==>
                  refs[a] == if Ahead(start, a) < Ahead(start, addr) then Bumped(old(refs[a]), add) else old(refs[a])
      decreases Ahead(start, end) - Ahead(start, addr)
    {
      AheadOnly(start, addr);
      AheadStep(start, end, addr);
      var next := (addr + 1) % 0x1_0000;
      var seen' := seen[addr / 256 := true];
      forall p | 0 <= p < 256
        ensures seen'[p] == OverlapsPage(start, next, p)
      {
        if addr == start { OverlapStarts(start, p); } else { OverlapGrows(start, addr, p); }
      }
      seen := seen';
      refs[addr] := Bumped(refs[addr], add);
      addr := next;
    }
  }

  method BumpPages(refs: array<nat>, seen: seq<bool>, add: bool)
    requires refs.Length == 256 && |seen| == 256
    modifies refs
    ensures forall p :: 0 <= p < 256 ==> refs[p] == if seen[p] then Bumped(old(refs[p]), add) else old(refs[p])
  {
    hide Bumped;
    for i := 0 to 256
      invariant forall p :: 0 <= p < i ==> refs[p] == if seen[p] then Bumped(old(refs[p]), add) else old(refs[p])
      invariant forall p :: i <= p < 256 ==> refs[p] == old(refs[p])
    {
      if seen[i] {
        refs[i] := Bumped(refs[i], add);
      }
    }
  }

  method BumpRange(refs: array<nat>, start: nat, len: nat, add: bool)
    requires start + len <= refs.Length
    modifies refs
    ensures forall a :: 0 <= a < refs.Length ==>
              refs[a] == if start <= a < start + len then Bumped(old(refs[a]), add) else old(refs[a])
  {
    hide Bumped;
    for off := 0 to len
      invariant forall a :: 0 <= a < refs.Length ==>
                  refs[a] == if start <= a < start + off then Bumped(old(refs[a]), add) else old(refs[a])
    {
      refs[start + off] := Bumped(refs[start + off], add);
    }
  }

  /** A physical span that stays inside the 64K counter array. */
  predicate TagFits(b: Block) {
    b.tag.ByteTag? ==> b.tag.start + SpanLen(b) <= 0x1_0000
  }

  /** A deferred store event: the address, and its physical address if the
      store was a physical hit. */
  datatype Event = Event(addr: word, phys: Option<word>)

  const CACHE_SIZE := 0x1_0000
  const MAX_ACTIVE := 1024
  const EVENT_SLOTS := 4
  const MAX_EVENTS := 128
  const PAGE_THRESHOLD := 4

  /** Which blocks an invalidation discards. */
  datatype Select = ByAddr(a: word) | ByPage(p: byte) | ByCodePage(p: byte) | ByPhys(pa: word)

  predicate Selected(b: Block, sel: Select) {
    match sel
    case ByAddr(a) => Contains(b.start, b.end, a)
    case ByPage(p) => OverlapsPage(b.start, b.end, p)
    case ByCodePage(p) => b.start / 256 == p
    case ByPhys(pa) => PhysMatch(b, pa)
  }

  function Surviving(s: Option<Block>, sel: Select): Option<Block> {
    if s.Some? && Selected(s.value, sel) then None else s
  }

  /** The table after an invalidation. */
  function Without(bs: seq<Option<Block>>, sel: Select): seq<Option<Block>> {
    seq(|bs|, i requires 0 <= i < |bs| => Surviving(bs[i], sel))
  }

  /** Every live block sits at its start address and was built properly. */
  predicate TableOk(bs: seq<Option<Block>>) {
    forall i :: 0 <= i < |bs| && bs[i].Some? ==> BlockOk(bs[i].value, i)
  }

  predicate BlockOk(b: Block, i: nat) {
    b.start == i && WellBuilt(b) && TagFits(b) && Genuine(b.code)
  }

  /** The instructions carry the rows of their opcodes. */
  predicate Genuine(code: seq<Insn>) {
    forall k :: 0 <= k < |code| ==> code[k].def == Def(code[k].opcode)
  }

  /** The block table and the state of the adaptive policy. */
  datatype Policy = Policy(blocks: seq<Option<Block>>, pageEvents: seq<nat>, mutablePages: seq<bool>, events: nat)

  /** The page of the event has reached the demotion threshold. */
  predicate Demotes(s: Policy, page: byte)
    requires |s.pageEvents| == 256 && |s.mutablePages| == 256
  {
    !s.mutablePages[page] && (s.pageEvents[page] + 1) % 0x1_0000 >= PAGE_THRESHOLD
  }

  /** The table once the blocks the event hit directly are gone. */
  function AfterHit(bs: seq<Option<Block>>, ev: Event): seq<Option<Block>> {
    var hit := Without(bs, ByAddr(ev.addr));
    if ev.phys.Some? then Without(hit, ByPhys(ev.phys.value)) else hit
  }

  /** One store event: discard what it hit, count it against its page, demote
      the page at the threshold. */
  function Process(s: Policy, ev: Event): Policy
    requires |s.pageEvents| == 256 && |s.mutablePages| == 256
  {
    var page := ev.addr / 256;
    var bs := AfterHit(s.blocks, ev);
    Policy(if Demotes(s, page) then Without(bs, ByPage(page)) else bs,
           s.pageEvents[page := (s.pageEvents[page] + 1) % 0x1_0000],
           s.mutablePages[page := s.mutablePages[page] || Demotes(s, page)],
           s.events + 1)
  }

  function ProcessAll(s: Policy, evs: seq<Event>): Policy
    requires |s.pageEvents| == 256 && |s.mutablePages| == 256
    decreases |evs|
  {
    if evs == [] then s else ProcessAll(Process(s, evs[0]), evs[1..])
  }

  /** How many events are stores to the page. */
  function EventsOn(evs: seq<Event>, p: byte): nat
    decreases |evs|
  {
    if evs == [] then 0 else One(evs[0].addr / 256 == p) + EventsOn(evs[1..], p)
  }

  /** No live block has code on the page. */
  predicate NoneOn(bs: seq<Option<Block>>, p: byte) {
    forall i :: 0 <= i < |bs| && bs[i].Some? ==> !OverlapsPage(bs[i].value.start, bs[i].value.end, p)
  }

  lemma ProcessStep(s: Policy, ev: Event, p: byte)
    requires |s.pageEvents| == 256 && |s.mutablePages| == 256
    ensures var s' := Process(s, ev);
            && |s'.pageEvents| == 256 && |s'.mutablePages| == 256 && s'.events == s.events + 1
            && (NoneOn(s.blocks, p) ==> NoneOn(s'.blocks, p))
            && (ev.addr / 256 != p ==> s'.pageEvents[p] == s.pageEvents[p] && s'.mutablePages[p] == s.mutablePages[p])
            && (ev.addr / 256 == p && s.pageEvents[p] < 4 ==>
                  && s'.pageEvents[p] == s.pageEvents[p] + 1
                  && (s'.mutablePages[p] <==> s.mutablePages[p] || s.pageEvents[p] == 3)
                  && (!s.mutablePages[p] && s'.mutablePages[p] ==> NoneOn(s'.blocks, p)))
            && (s.mutablePages[p] ==> s'.mutablePages[p])
  {
    hide OverlapsPage, Contains, PhysMatch;
  }

  /** Adaptive demotion: a page whose counter is `n` and which is not yet demoted
      is demoted by a run of events exactly when they bring it to four; its blocks
      are then gone. A demoted page stays demoted. */
  lemma {:induction false} DemotedAtFour(s: Policy, evs: seq<Event>, p: byte)
    requires |s.pageEvents| == 256 && |s.mutablePages| == 256
    ensures var s' := ProcessAll(s, evs);
            && |s'.mutablePages| == 256
            && s'.events == s.events + |evs|
            && (NoneOn(s.blocks, p) ==> NoneOn(s'.blocks, p))
            && (s.mutablePages[p] ==> s'.mutablePages[p])
            && (!s.mutablePages[p] && s.pageEvents[p] < 4 ==>
                  && (s'.mutablePages[p] <==> s.pageEvents[p] + EventsOn(evs, p) >= 4)
                  && (s'.mutablePages[p] ==> NoneOn(s'.blocks, p)))
    decreases |evs|
  {
    hide Process, NoneOn;
    if evs != [] {
      ProcessStep(s, evs[0], p);
      DemotedAtFour(Process(s, evs[0]), evs[1..], p);
    }
  }

  /** Every live block carries the tag of the current page map. */
  predicate TagsOk(bs: seq<Option<Block>>, m: Memory) {
    forall i :: 0 <= i < |bs| && bs[i].Some? ==> TagOk(bs[i].value, m)
  }

  /** Some live block holds the byte a store to `v` reaches. */
  predicate Tracked(bs: seq<Option<Block>>, m: Memory, v: word) {
    exists i :: 0 <= i < |bs| && bs[i].Some? && Touches(bs[i].value, m, v)
  }

  /** The counter test for a physical hit. */
  predicate PhysHit(bs: seq<Option<Block>>, m: Memory, v: word) {
    && Count(bs, PhysKey) != 0
    && (Count(bs, PhysAddrKey(Phys(m, v))) != 0 || Count(bs, PhysPageKey(Phys(m, v) / 256)) != 0)
  }

  /** The event a store to `v` is recorded as. */
  function EventAt(bs: seq<Option<Block>>, m: Memory, v: word): Event {
    Event(v, if PhysHit(bs, m, v) then Some(Phys(m, v)) else None)
  }

  lemma PhysHitScan(bs: seq<Option<Block>>, m: Memory, v: word)
    ensures PhysHit(bs, m, v) <==> exists i :: 0 <= i < |bs| && bs[i].Some? && PhysCounted(bs[i].value, Phys(m, v))
  {
    hide Count, SpanLen, Phys;
    var pa := Phys(m, v);
    CountZero(bs, PhysKey);
    CountZero(bs, PhysAddrKey(pa));
    CountZero(bs, PhysPageKey(pa / 256));
    if i :| 0 <= i < |bs| && bs[i].Some? && PhysCounted(bs[i].value, pa) {
      assert SlotHits(bs[i], PhysKey);
      assert SlotHits(bs[i], PhysAddrKey(pa)) || SlotHits(bs[i], PhysPageKey(pa / 256));
    }
    if PhysHit(bs, m, v) {
      var k := if Count(bs, PhysAddrKey(pa)) != 0 then PhysAddrKey(pa) else PhysPageKey(pa / 256);
      var i :| 0 <= i < |bs| && SlotHits(bs[i], k);
      assert PhysCounted(bs[i].value, pa);
    }
  }

  /** The counter test for a virtual hit. */
  predicate VirtHit(bs: seq<Option<Block>>, v: word) {
    Count(bs, PageKey(v / 256)) != 0 && Count(bs, AddrKey(v)) != 0
  }

  lemma ContainsOverlaps(start: word, end: word, a: word)
    requires Contains(start, end, a)
    ensures OverlapsPage(start, end, a / 256)
  {}

  lemma VirtHitScan(bs: seq<Option<Block>>, v: word)
    ensures VirtHit(bs, v) <==> exists i :: 0 <= i < |bs| && bs[i].Some? && Contains(bs[i].value.start, bs[i].value.end, v)
  {
    hide Count, Contains, OverlapsPage;
    CountZero(bs, PageKey(v / 256));
    CountZero(bs, AddrKey(v));
    if i :| 0 <= i < |bs| && bs[i].Some? && Contains(bs[i].value.start, bs[i].value.end, v) {
      ContainsOverlaps(bs[i].value.start, bs[i].value.end, v);
      assert SlotHits(bs[i], PageKey(v / 256)) && SlotHits(bs[i], AddrKey(v));
    }
    if VirtHit(bs, v) {
      var i :| 0 <= i < |bs| && SlotHits(bs[i], AddrKey(v));
      assert Contains(bs[i].value.start, bs[i].value.end, v);
    }
  }

  lemma HitIsTouch(b: Block, i: nat, m: Memory, v: word)
    requires BlockOk(b, i) && TagOk(b, m)
    ensures Contains(b.start, b.end, v) || PhysCounted(b, Phys(m, v)) <==> Touches(b, m, v)
  {
    hide WellBuilt, Len, SpanLen, Contains, Phys;
    SpanExact(b, v);
    if m.paged {
      PhysMatchExact(b, m, v);
    }
    CoversTouches(b, m, v);
  }

  lemma CoversTouches(b: Block, m: Memory, v: word)
    requires WellBuilt(b)
    ensures Covers(b, v) ==> Touches(b, m, v)
    ensures !m.paged && Touches(b, m, v) ==> Covers(b, v)
  {
    hide Decoded, Straight;
    if Covers(b, v) {
      PhysOnPage(m, b.start, v);
    }
  }

  /** The counter tests make a store an event exactly when a full scan of the
      live blocks finds one that holds the byte, through any alias. */
  lemma EventIffTracked(bs: seq<Option<Block>>, m: Memory, v: word)
    requires TableOk(bs) && TagsOk(bs, m)
    ensures VirtHit(bs, v) || PhysHit(bs, m, v) <==> Tracked(bs, m, v)
  {
    hide VirtHit, PhysHit, Touches, Contains, PhysCounted, TagOk, BlockOk, Phys;
    VirtHitScan(bs, v);
    PhysHitScan(bs, m, v);
    forall i | 0 <= i < |bs| && bs[i].Some?
      ensures Contains(bs[i].value.start, bs[i].value.end, v) || PhysCounted(bs[i].value, Phys(m, v))
              <==> Touches(bs[i].value, m, v)
    {
      HitIsTouch(bs[i].value, i, m, v);
    }
  }

  /** The loop that adds up the instruction sizes in 16 bits. */
  method EndOf(pc: word, code: seq<Insn>) returns (end: word)
    ensures end == At(pc, code, |code|)
  {
    end := pc;
    for k := 0 to |code|
      invariant end == At(pc, code, k)
    {
      end := (end + code[k].def.size) % 0x1_0000;
    }
  }

  /** The tag of a new block on one page: none without an MMU mapping, and
      otherwise always byte-precise, because a page map keeps the page in order;
      the coarser page tag is never used. */
  method ComputeTag(m: Memory, pc: word, ghost len: nat, end: word) returns (tag: Tag)
    requires 1 <= len && OnPage(pc, len) && end == (pc + len) % 0x1_0000
    ensures tag == if m.paged then ByteTag(Phys(m, pc)) else NoTag
    ensures m.paged ==> Phys(m, pc) + len <= 0x1_0000
  {
    hide Phys, OnPage;
    tag := NoTag;
    if m.paged {
      PageContiguous(m, pc, len);
      var first := Phys(m, pc);
      tag := PageTag(first / 256);
      if first % 256 == pc % 256 && end != pc {
        var last := Phys(m, (end - 1) % 0x1_0000);
        if last == (first + (end - pc) % 0x1_0000 - 1) % 0x1_0000 {
          tag := ByteTag(first);
        }
      }
    }
  }

  predicate Contiguous(m: Memory, pc: word, end: word) {
    && Phys(m, pc) % 256 == pc % 256 && end != pc
    && Phys(m, (end - 1) % 0x1_0000) == (Phys(m, pc) + (end - pc) % 0x1_0000 - 1) % 0x1_0000
  }

  /** A built list makes a block that fits the table. */
  lemma NewBlockOk(m: Memory, pc: word, code: seq<Insn>, tag: Tag)
    requires Built(code, pc, m) && code != []
    requires tag == if m.paged then ByteTag(Phys(m, pc)) else NoTag
    ensures var b := Block(pc, At(pc, code, |code|), code, tag);
            BlockOk(b, pc) && TagOk(b, m)
  {
    hide Decoded, Straight, BuildStops, Fits, Contiguous, Phys, OnPage, Matches;
    var b := Block(pc, At(pc, code, |code|), code, tag);
    assert WellBuilt(b);
    LenPositive(b);
    SpanLenIsLen(b);
    if m.paged {
      PageContiguous(m, pc, Len(b));
    }
    BuiltGenuine(code, pc, m);
  }

  lemma BuiltGenuine(code: seq<Insn>, pc: word, m: Memory)
    requires Matches(code, pc, m)
    ensures Genuine(code)
  {
    hide Def, At, Load;
  }

  lemma PageContiguous(m: Memory, pc: word, len: nat)
    requires 1 <= len && OnPage(pc, len) && m.paged
    ensures Contiguous(m, pc, (pc + len) % 0x1_0000) && Phys(m, pc) + len <= 0x1_0000
  {
    hide Phys;
    WrapEnd(pc, len);
    PhysOnPage(m, pc, pc + len - 1);
    PhysInPage(m, pc);
  }

  lemma WrapEnd(pc: word, len: nat)
    requires 1 <= len <= 256 && pc + len <= 0x1_0000
    ensures var end := (pc + len) % 0x1_0000;
            end != pc && (end - 1) % 0x1_0000 == pc + len - 1 && (end - pc) % 0x1_0000 == len
  {}

  lemma PhysInPage(m: Memory, pc: word)
    ensures Phys(m, pc) % 256 == pc % 256 && Phys(m, pc) - Phys(m, pc) % 256 <= 0xFF00
  {}

  lemma NoCodeOnPage(bs: seq<Option<Block>>, p: byte)
    requires Count(bs, CodeKey(p)) == 0
    ensures Without(bs, ByCodePage(p)) == bs
  {
    hide Count;
    CountZero(bs, CodeKey(p));
    assert forall i :: 0 <= i < |bs| ==> !SlotHits(bs[i], CodeKey(p));
  }

  lemma BuiltOnPage(code: seq<Insn>, pc: word, m: Memory)
    requires Built(code, pc, m) && code != []
    ensures 1 <= Off(code, |code|) && OnPage(pc, Off(code, |code|))
  {
    hide Matches, Fits, BuildStops;
    OffGrows(code, 0, |code|);
  }

  class CodeCache {
    const blocks: array<Option<Block>>
    const covered: array<nat>
    const physCovered: array<nat>
    const pageRefs: array<nat>
    const codeRefs: array<nat>
    const physPageRefs: array<nat>
    const pageEvents: array<nat>
    const mutablePage: array<bool>
    var physTotal: nat
    var active: nat
    var events: nat
    var needsFlush: bool
    var pending: seq<Event>
    var overflow: bool
    /** The emulator's use_jit: cleared to make a running block return. */
    var useJit: bool

    /** jit_backend_create. */
    constructor ()
      ensures Valid() && fresh(this) && fresh(Index()) && fresh(pageEvents) && fresh(mutablePage)
      ensures forall i :: 0 <= i < CACHE_SIZE ==> blocks[i].None?
      ensures forall p :: 0 <= p < 256 ==> pageEvents[p] == 0 && !mutablePage[p]
      ensures pending == [] && !overflow && !needsFlush && events == 0 && useJit
    {
      blocks := new Option<Block>[CACHE_SIZE];
      covered := new nat[0x1_0000];
      physCovered := new nat[0x1_0000];
      pageRefs := new nat[256];
      codeRefs := new nat[256];
      physPageRefs := new nat[256];
      pageEvents := new nat[256];
      mutablePage := new bool[256];
      physTotal, active, events, needsFlush, pending, overflow, useJit := 0, 0, 0, false, [], false, true;
      new;
      hide Valid;
      Clear();
    }

    /** The memset calls of jit_backend_create. */
    method Clear()
      requires Shape() && active == 0
      modifies this`physTotal, Index(), pageEvents, mutablePage
      ensures Valid() && forall i :: 0 <= i < CACHE_SIZE ==> blocks[i].None?
      ensures forall p :: 0 <= p < 256 ==> pageEvents[p] == 0 && !mutablePage[p]
    {
      hide Count, TableOk;
      forall i | 0 <= i < CACHE_SIZE { blocks[i] := None; }
      ZeroCounters();
      ForgetPages();
    }

    lemma EmptyIsValid()
      requires Shape() && forall i :: 0 <= i < CACHE_SIZE ==> blocks[i].None?
      requires forall k :: Ref(k) == 0
      ensures Valid()
    {
      hide Count;
      forall k: Key
        ensures Count(blocks[..], k) == 0
      {
        CountZero(blocks[..], k);
      }
      assert Ref(LiveKey) == 0;
    }

    ghost predicate Shape() {
      && blocks.Length == CACHE_SIZE && covered.Length == 0x1_0000 && physCovered.Length == 0x1_0000
      && pageRefs.Length == 256 && codeRefs.Length == 256 && physPageRefs.Length == 256
      && pageEvents.Length == 256 && mutablePage.Length == 256
      && covered != physCovered && pageRefs != codeRefs && pageRefs != physPageRefs && codeRefs != physPageRefs
      && pageEvents != pageRefs && pageEvents != codeRefs && pageEvents != physPageRefs
    }

    /** The objects that hold the blocks and their counters. */
    ghost function Index(): set<object> {
      {blocks as object, covered, physCovered, pageRefs, codeRefs, physPageRefs}
    }

    /** What the counter for a key shows. */
    ghost function Ref(k: Key): nat
      requires Shape()
      reads this`physTotal, this`active, Index()
    {
      match k
      case LiveKey => active
      case AddrKey(a) => covered[a]
      case PageKey(p) => pageRefs[p]
      case CodeKey(p) => codeRefs[p]
      case PhysAddrKey(a) => physCovered[a]
      case PhysPageKey(p) => physPageRefs[p]
      case PhysKey => physTotal
    }

    /** Every counter but `active` shows the number of live blocks it stands for;
        the table is well formed and holds at most 1024 blocks. */
    ghost predicate Indexed()
      reads this`physTotal, this`active, Index()
    {
      && Shape() && TableOk(blocks[..]) && Count(blocks[..], LiveKey) <= MAX_ACTIVE
      && forall k :: k != LiveKey ==> Ref(k) == Count(blocks[..], k)
    }

    /** Index exactness. */
    ghost predicate Valid()
      reads this`physTotal, this`active, Index()
    {
      Indexed() && active == Count(blocks[..], LiveKey)
    }

    lemma Facts()
      requires Valid()
      ensures Shape() && blocks.Length == CACHE_SIZE && TableOk(blocks[..])
    {}

    /** jit_block_page_refs_update. The clamp at zero and the 16-bit cast are in
        the code; the precondition says neither changes a value. */
    method RefsUpdate(b: Block, add: bool)
      requires Shape() && TagFits(b)
      requires forall k :: k != LiveKey && Hits(b, k) ==> if add then Ref(k) < 0xFFFF else 0 < Ref(k) <= 0xFFFF
      modifies this`physTotal, covered, physCovered, pageRefs, codeRefs, physPageRefs
      ensures forall k :: k != LiveKey ==> Ref(k) == old(Ref(k)) + (if !Hits(b, k) then 0 else if add then 1 else -1)
    {
      hide Contains, OverlapsPage, SpanLen, Bumped;
      var seen := BumpSpan(covered, b.start, b.end, add);
      BumpPages(pageRefs, seen, add);
      match b.tag {
        case NoTag =>
        case ByteTag(s) => BumpRange(physCovered, s, SpanLen(b), add);
        case PageTag(p) => physPageRefs[p] := Bumped(physPageRefs[p], add);
      }
      if !b.tag.NoTag? {
        if add {
          physTotal := physTotal + 1;
        } else if physTotal > 0 {
          physTotal := physTotal - 1;
        }
      }
      codeRefs[b.start / 256] := Bumped(codeRefs[b.start / 256], add);
      forall k: Key | k != LiveKey
        ensures Ref(k) == old(Ref(k)) + (if !Hits(b, k) then 0 else if add then 1 else -1)
      {
        BumpedExact(old(Ref(k)), add);
      }
    }

    /** The counters of a live block are between 1 and 1024, so the clamp is
        never used on a discard and no counter wraps. */
    lemma CountersInRange(i: nat)
      requires Indexed() && i < CACHE_SIZE && blocks[i].Some?
      ensures forall k :: k != LiveKey && Hits(blocks[i].value, k) ==> 0 < Ref(k) <= 1024
      ensures 0 < Count(blocks[..], LiveKey)
    {
      hide TableOk, Count;
      forall k: Key | Hits(blocks[i].value, k)
        ensures 0 < Count(blocks[..], k) <= MAX_ACTIVE
      {
        CountZero(blocks[..], k);
        assert SlotHits(blocks[..][i], k);
        CountLive(blocks[..], k);
      }
      assert Hits(blocks[i].value, LiveKey);
    }

    /** Take one live block out of the table and the counters. */
    method Release(i: nat)
      requires Indexed() && i < CACHE_SIZE && blocks[i].Some?
      modifies this`physTotal, Index()
      ensures Indexed() && blocks[..] == old(blocks[..])[i := None]
      ensures Count(blocks[..], LiveKey) == Count(old(blocks[..]), LiveKey) - 1
    {
      hide Count, BlockOk, Contains, OverlapsPage, SpanLen;
      ghost var bs := blocks[..];
      var b := blocks[i].value;
      assert BlockOk(bs[i].value, i);
      CountersInRange(i);
      KillFits(b, i);
      RefsUpdate(b, false);
      blocks[i] := None;
      assert blocks[..] == bs[i := None];
      forall k: Key
        ensures k != LiveKey ==> Ref(k) == Count(blocks[..], k)
      {
        CountUpdate(bs, i, None, k);
      }
      CountUpdate(bs, i, None, LiveKey);
    }

    lemma KillFits(b: Block, i: nat)
      requires BlockOk(b, i)
      ensures TagFits(b)
    {}

    /** Put a new block into a free slot. */
    method Install(b: Block)
      requires Valid() && blocks[b.start].None? && active < MAX_ACTIVE && BlockOk(b, b.start)
      modifies this`physTotal, this`active, Index()
      ensures Valid() && blocks[..] == old(blocks[..])[b.start := Some(b)]
    {
      hide Count, Contains, OverlapsPage, SpanLen, WellBuilt, TagFits, Genuine;
      ghost var bs := blocks[..];
      forall k: Key
        ensures Count(bs, k) <= active < MAX_ACTIVE
      {
        CountLive(bs, k);
      }
      RefsUpdate(b, true);
      blocks[b.start] := Some(b);
      active := active + 1;
      assert blocks[..] == bs[b.start := Some(b)];
      forall k: Key
        ensures Ref(k) == Count(blocks[..], k)
      {
        CountUpdate(bs, b.start, Some(b), k);
      }
    }

    /** The loop shared by the four jit_invalidate_blocks_for_* functions. */
    method InvalidateWhere(sel: Select)
      requires Valid()
      modifies this`physTotal, this`active, Index()
      ensures Valid() && blocks[..] == Without(old(blocks[..]), sel)
    {
      hide Count, TableOk, Selected;
      ghost var bs := blocks[..];
      for i := 0 to CACHE_SIZE
        invariant Valid() && blocks.Length == |bs|
        invariant forall j :: 0 <= j < i ==> blocks[j] == Surviving(bs[j], sel)
        invariant forall j :: i <= j < CACHE_SIZE ==> blocks[j] == bs[j]
      {
        if blocks[i].Some? && Selected(blocks[i].value, sel) {
          ghost var now := blocks[..];
          Release(i);
          if active > 0 {
            active := active - 1;
          }
          assert forall j :: 0 <= j < CACHE_SIZE ==> blocks[j] == now[i := None][j];
        }
      }
      assert blocks[..] == Without(bs, sel);
    }

    /** jit_invalidate_blocks_for_code_page, with its early exit. */
    method InvalidateCodePage(p: byte)
      requires Valid()
      modifies this`physTotal, this`active, Index()
      ensures Valid() && blocks[..] == Without(old(blocks[..]), ByCodePage(p))
    {
      hide Count, TableOk, Without;
      if codeRefs[p] == 0 {
        assert Ref(CodeKey(p)) == 0;
        NoCodeOnPage(blocks[..], p);
      } else {
        InvalidateWhere(ByCodePage(p));
      }
    }

    /** jit_invalidate_deferred in a running block: ask for a full flush after
        the block, and make it return at its next check. */
    method RequestFlush()
      modifies this`needsFlush, this`useJit
      ensures needsFlush && !useJit
    {
      needsFlush := true;
      useJit := false;
    }

    /** jit_compile_block for an address without a live block. Fails when the
        first instruction leaves the page. */
    method Compile(m: Memory, pc: word) returns (ok: bool)
      requires Valid() && blocks[pc].None? && active < MAX_ACTIVE && TagsOk(blocks[..], m)
      modifies this`physTotal, this`active, Index()
      ensures Valid() && TagsOk(blocks[..], m)
      ensures ok <==> pc % 256 + Fetch(m, pc).def.size <= 256
      ensures !ok ==> blocks[..] == old(blocks[..])
      ensures ok ==> blocks[pc].Some? && blocks[..] == old(blocks[..])[pc := blocks[pc]]
                     && blocks[pc].value.start == pc && Built(blocks[pc].value.code, pc, m)
    {
      hide Count, TableOk, Built, TagOk, BlockOk, Off, Fetch;
      var code := BuildBlockInsns(m, pc);
      BuiltEnds(code, pc, m);
      if code == [] {
        return false;
      }
      var end := EndOf(pc, code);
      BuiltOnPage(code, pc, m);
      var tag := ComputeTag(m, pc, Off(code, |code|), end);
      ghost var bs := blocks[..];
      NewBlockOk(m, pc, code, tag);
      Install(Block(pc, end, code, tag));
      assert blocks[..] == bs[pc := Some(Block(pc, end, code, tag))];
      ok := true;
    }

    ghost function View(): (s: Policy)
      reads this`events, blocks, pageEvents, mutablePage
      ensures Shape() ==> |s.pageEvents| == 256 && |s.mutablePages| == 256
    {
      Policy(blocks[..], pageEvents[..], mutablePage[..], events)
    }

    /** The invalidation step of rk65c02_jit_note_guest_write in interpreter
        context, and of jit_process_pending_writes for one slot. */
    method ProcessEvent(ev: Event)
      requires Valid()
      modifies this`physTotal, this`active, this`events, Index(), pageEvents, mutablePage
      ensures Valid() && View() == Process(old(View()), ev)
    {
      hide Count, TableOk, Without;
      ghost var s := View();
      InvalidateWhere(ByAddr(ev.addr));
      events := events + 1;
      if ev.phys.Some? {
        InvalidateWhere(ByPhys(ev.phys.value));
      }
      var page := ev.addr / 256;
      pageEvents[page] := (pageEvents[page] + 1) % 0x1_0000;
      if !mutablePage[page] && pageEvents[page] >= PAGE_THRESHOLD {
        mutablePage[page] := true;
        InvalidateWhere(ByPage(page));
      }
      assert pageEvents[..] == s.pageEvents[page := (s.pageEvents[page] + 1) % 0x1_0000];
      assert mutablePage[..] == s.mutablePages[page := s.mutablePages[page] || Demotes(s, page)];
    }

    /** The tests of rk65c02_jit_note_guest_write, on the counters. */
    method Probe(m: Memory, v: word) returns (ev: Option<Event>)
      requires Valid()
      ensures ev.Some? <==> VirtHit(blocks[..], v) || PhysHit(blocks[..], m, v)
      ensures TagsOk(blocks[..], m) ==> (ev.Some? <==> Tracked(blocks[..], m, v))
      ensures ev.Some? ==> ev.value == EventAt(blocks[..], m, v)
    {
      hide Count, TableOk, TagsOk, Tracked, Phys;
      ghost var bs := blocks[..];
      if TagsOk(bs, m) {
        EventIffTracked(bs, m, v);
      }
      if active == 0 {
        CountLive(bs, AddrKey(v));
        CountLive(bs, PhysKey);
        return None;
      }
      assert forall k :: k != LiveKey ==> Ref(k) == Count(bs, k);
      var virt := pageRefs[v / 256] != 0 && covered[v] != 0;
      assert virt == VirtHit(bs, v) by {
        assert Ref(PageKey(v / 256)) == pageRefs[v / 256] && Ref(AddrKey(v)) == covered[v];
      }
      var phys := false;
      var pa := Phys(m, v);
      if physTotal != 0 {
        phys := physCovered[pa] != 0 || physPageRefs[pa / 256] != 0;
      }
      assert phys == PhysHit(bs, m, v) by {
        assert Ref(PhysKey) == physTotal && Ref(PhysAddrKey(pa)) == physCovered[pa];
        assert Ref(PhysPageKey(pa / 256)) == physPageRefs[pa / 256];
      }
      if !virt && !phys {
        return None;
      }
      return Some(Event(v, if phys then Some(pa) else None));
    }

    /** rk65c02_jit_note_guest_write. Inside a running block (`inRun`) the event
        is only recorded; otherwise it is processed at once. */
    method NoteGuestWrite(m: Memory, v: word, inRun: bool) returns (event: bool)
      requires Valid()
      modifies this`physTotal, this`active, this`events, this`pending, this`overflow, this`useJit
      modifies Index(), pageEvents, mutablePage
      ensures Valid() && event == (VirtHit(old(blocks[..]), v) || PhysHit(old(blocks[..]), m, v))
      ensures TagsOk(old(blocks[..]), m) ==> event == Tracked(old(blocks[..]), m, v)
      ensures useJit == (old(useJit) && !(event && inRun))
      ensures !event || inRun ==> View() == old(View())
      ensures !event || !inRun ==> pending == old(pending) && overflow == old(overflow)
      ensures event && inRun && |old(pending)| < 4 ==>
                pending == old(pending) + [EventAt(blocks[..], m, v)] && overflow == old(overflow)
      ensures event && inRun && |old(pending)| >= 4 ==> pending == old(pending) && overflow
      ensures event && !inRun ==> View() == Process(old(View()), EventAt(old(blocks[..]), m, v))
    {
      hide Count, TableOk, TagsOk, Tracked, EventAt, Process, VirtHit, PhysHit;
      var ev := Probe(m, v);
      event := ev.Some?;
      if event {
        if inRun {
          useJit := false;
          if |pending| < EVENT_SLOTS {
            pending := pending + [ev.value];
          } else {
            overflow := true;
          }
        } else {
          ProcessEvent(ev.value);
        }
      }
    }

    /** jit_process_pending_writes; true when the run's event budget is spent. */
    method ProcessPending() returns (exhausted: bool)
      requires Valid()
      modifies this`physTotal, this`active, this`events, this`needsFlush, this`pending, this`overflow
      modifies Index(), pageEvents, mutablePage
      ensures Valid() && pending == [] && !overflow
      ensures old(overflow) ==> active == 0 && !needsFlush && forall i :: 0 <= i < CACHE_SIZE ==> blocks[i].None?
      ensures !old(overflow) ==> View() == ProcessAll(old(View()), old(pending)) && needsFlush == old(needsFlush)
      ensures events == old(events) + (if old(overflow) then 1 else |old(pending)|)
      ensures exhausted <==> events >= 128
    {
      hide Count, TableOk, Process;
      if overflow {
        Flush();
        events := events + 1;
      } else {
        ghost var s := View();
        for wi := 0 to |pending|
          invariant Valid() && pending == old(pending) && needsFlush == old(needsFlush)
          invariant ProcessAll(View(), pending[wi..]) == ProcessAll(s, pending)
        {
          assert pending[wi..][0] == pending[wi] && pending[wi..][1..] == pending[wi + 1..];
          ProcessEvent(pending[wi]);
        }
        assert pending[|pending|..] == [];
        DemotedAtFour(s, pending, 0);
      }
      pending, overflow := [], false;
      exhausted := events >= MAX_EVENTS;
    }

    /** jit_run_state_reset. */
    method StartRun()
      requires Valid()
      modifies this`events, pageEvents, mutablePage
      ensures Valid() && blocks[..] == old(blocks[..]) && events == 0
      ensures forall p :: 0 <= p < 256 ==> pageEvents[p] == 0 && !mutablePage[p]
    {
      hide Count, TableOk;
      events := 0;
      ForgetPages();
      assert blocks[..] == old(blocks[..]);
      assert forall k :: Ref(k) == old(Ref(k));
    }

    /** jit_backend_flush. */
    method Flush()
      requires Valid()
      modifies this`physTotal, this`active, this`needsFlush, this`pending, this`overflow
      modifies Index(), pageEvents, mutablePage
      ensures Valid() && active == 0
      ensures forall i :: 0 <= i < CACHE_SIZE ==> blocks[i].None?
      ensures forall p :: 0 <= p < 256 ==> pageEvents[p] == 0 && !mutablePage[p]
      ensures !needsFlush && pending == [] && !overflow
    {
      hide Count, TableOk;
      FlushBlocks();
      active, needsFlush, pending, overflow := 0, false, [], false;
      ZeroCounters();
      ForgetPages();
    }

    /** The memsets of the per-page policy state. */
    method ForgetPages()
      requires pageEvents.Length == 256 && mutablePage.Length == 256
      modifies pageEvents, mutablePage
      ensures forall p :: 0 <= p < 256 ==> pageEvents[p] == 0 && !mutablePage[p]
    {
      forall p | 0 <= p < 256 { pageEvents[p] := 0; }
      forall p | 0 <= p < 256 { mutablePage[p] := false; }
    }

    /** The loop of jit_backend_flush, which leaves `active` for later. */
    method FlushBlocks()
      requires Indexed()
      modifies this`physTotal, Index()
      ensures Indexed() && forall i :: 0 <= i < CACHE_SIZE ==> blocks[i].None?
    {
      hide Count, TableOk;
      for i := 0 to CACHE_SIZE
        invariant Indexed()
        invariant forall j :: 0 <= j < i ==> blocks[j].None?
      {
        if blocks[i].Some? {
          ghost var now := blocks[..];
          Release(i);
          assert forall j :: 0 <= j < CACHE_SIZE ==> blocks[j] == now[i := None][j];
        }
      }
    }

    /** The counter memsets of jit_backend_create and jit_backend_flush. */
    method ZeroCounters()
      requires Shape() && active == 0 && forall i :: 0 <= i < CACHE_SIZE ==> blocks[i].None?
      modifies this`physTotal, Index()
      ensures Valid() && forall i :: 0 <= i < CACHE_SIZE ==> blocks[i].None?
    {
      forall p | 0 <= p < 256 { pageRefs[p] := 0; }
      forall p | 0 <= p < 256 { physPageRefs[p] := 0; }
      forall a | 0 <= a < 0x1_0000 { physCovered[a] := 0; }
      physTotal := 0;
      forall p | 0 <= p < 256 { codeRefs[p] := 0; }
      forall a | 0 <= a < 0x1_0000 { covered[a] := 0; }
      EmptyIsValid();
    }
  }

  lemma BumpedExact(x: nat, add: bool)
    ensures add && x < 0xFFFF ==> Bumped(x, add) == x + 1
    ensures !add && 0 < x <= 0xFFFF ==> Bumped(x, add) == x - 1
  {}
}
