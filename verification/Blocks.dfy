/** Compiled blocks: how they are built from memory, which addresses they
    cover, and which stores can make them stale. */
module Blocks {
  import opened Machine
  import opened Isa

  const MAX_INSNS := 64

  /** Physical tag of a block: none, a whole physical page, or the exact bytes
      from a physical start address. */
  datatype Tag = NoTag | PageTag(page: byte) | ByteTag(start: word)

  /** A live block. `code` is the instruction list its native function was
      emitted from. */
  datatype Block = Block(start: word, end: word, code: seq<Insn>, tag: Tag)

  /** Distance of instruction `k` from the start of the block. */
  function Off(code: seq<Insn>, k: nat): nat
    requires k <= |code|
  {
    if k == 0 then 0 else Off(code, k - 1) + code[k - 1].def.size
  }

  function Len(b: Block): nat {
    Off(b.code, |b.code|)
  }

  /** Instructions after which the builder stops. */
  predicate EndsBlock(i: Insn) {
    !CondBranchOpcode(i.opcode) && (i.def.modifyPc || i.opcode == 0x60 || i.opcode == 0xDB || i.opcode == 0xCB)
  }

  predicate Decoded(code: seq<Insn>) {
    forall k :: 0 <= k < |code| ==> DefOk(code[k].def)
  }

  /** The bytes [start, start + n) lie on one page, without wrapping. */
  predicate OnPage(start: word, n: nat) {
    start + n <= 256 * (start / 256) + 256
  }

  /** Address of instruction `k`, as the emitter computes it. */
  function At(start: word, code: seq<Insn>, k: nat): word
    requires k <= |code|
  {
    (start + Off(code, k)) % 0x1_0000
  }

  /** The instruction list equals a linear decode of `m` from `start`. */
  predicate Matches(code: seq<Insn>, start: word, m: Memory) {
    forall k :: 0 <= k < |code| ==> code[k] == Fetch(m, At(start, code, k))
  }

  /** Nothing follows an instruction that ends the block. */
  predicate Straight(code: seq<Insn>) {
    forall k :: 0 <= k < |code| - 1 ==> !EndsBlock(code[k])
  }

  /** The shape jit_build_block_insns gives every block: at least one
      instruction, at most 64, every byte on the entry page. */
  predicate WellBuilt(b: Block) {
    && 1 <= |b.code| <= MAX_INSNS && Decoded(b.code) && Straight(b.code)
    && OnPage(b.start, Len(b)) && b.end == (b.start + Len(b)) % 0x1_0000
  }

  lemma {:induction false} OffGrows(code: seq<Insn>, j: nat, k: nat)
    requires j <= k <= |code| && Decoded(code)
    ensures Off(code, j) + (k - j) <= Off(code, k)
    decreases k - j
  {
    if j < k {
      OffGrows(code, j, k - 1);
    }
  }

  lemma {:induction false} OffPrefix(code: seq<Insn>, more: seq<Insn>, k: nat)
    requires k <= |code|
    ensures Off(code + more, k) == Off(code, k)
  {
    if k > 0 {
      OffPrefix(code, more, k - 1);
      assert (code + more)[k - 1] == code[k - 1];
    }
  }

  // --------------------------------------------------------------- building

  /** What jit_build_block_insns returns: a decode of memory that stops only at
      64 instructions, after an instruction that ends the block, at the end of
      the page, or before an instruction that would leave the page. */
  predicate Built(code: seq<Insn>, start: word, m: Memory) {
    && |code| <= MAX_INSNS && Decoded(code) && Straight(code)
    && OnPage(start, Off(code, |code|)) && Matches(code, start, m)
    && (BuildStops(code, start) || !Fits(start, code, Fetch(m, At(start, code, |code|))))
  }

  /** The builder does not look at another instruction. */
  predicate BuildStops(code: seq<Insn>, start: word) {
    || |code| == MAX_INSNS
    || (code != [] && EndsBlock(code[|code| - 1]))
    || At(start, code, |code|) / 256 != start / 256
  }

  /** The next instruction would stay on the page. */
  predicate Fits(start: word, code: seq<Insn>, next: Insn) {
    (At(start, code, |code|) + next.def.size - 1) % 0x1_0000 / 256 == start / 256
  }

  lemma EmptyOnPage(start: word, m: Memory)
    ensures Decoded([]) && Straight([]) && Open([])
    ensures OnPage(start, 0) && Matches([], start, m) && Off([], 0) == 0 && At(start, [], 0) == start
  {}

  method BuildBlockInsns(m: Memory, start: word) returns (code: seq<Insn>)
    ensures Built(code, start, m)
  {
    hide Fetch, Matches, OnPage, DefOk, EndsBlock, At, Off, BuildStops, Fits, Decoded, Straight, Open;
    EmptyOnPage(start, m);
    code := [];
    var pc := start;
    while |code| < MAX_INSNS
      invariant |code| <= MAX_INSNS && Decoded(code)
      invariant Straight(code) && Open(code)
      invariant OnPage(start, Off(code, |code|)) && Matches(code, start, m)
      invariant pc == At(start, code, |code|)
    {
      WhenToStop(start, code, Fetch(m, pc));
      if pc / 256 != start / 256 {
        break;
      }
      var i := Fetch(m, pc);
      if (pc + i.def.size - 1) % 0x1_0000 / 256 != start / 256 {
        break;
      }
      AppendInsn(code, start, m, i);
      AppendOpen(code, i);
      code := code + [i];
      if EndsBlock(i) {
        break;
      }
      pc := (pc + i.def.size) % 0x1_0000;
    }
    WhenToStop(start, code, Fetch(m, pc));
  }

  /** No instruction of the list ends a block. */
  predicate Open(code: seq<Insn>) {
    forall k :: 0 <= k < |code| ==> !EndsBlock(code[k])
  }

  lemma AppendOpen(code: seq<Insn>, i: Insn)
    requires Open(code)
    ensures Straight(code + [i]) && (!EndsBlock(i) ==> Open(code + [i]))
  {
    hide EndsBlock;
  }

  lemma WhenToStop(start: word, code: seq<Insn>, next: Insn)
    ensures |code| == MAX_INSNS || (code != [] && EndsBlock(code[|code| - 1])) ==> BuildStops(code, start)
    ensures At(start, code, |code|) / 256 != start / 256 ==> BuildStops(code, start)
    ensures Fits(start, code, next) <==> (At(start, code, |code|) + next.def.size - 1) % 0x1_0000 / 256 == start / 256
  {
    hide At, EndsBlock;
  }

  /** Adding one instruction that fits keeps the block on its page. */
  lemma PageStep(start: word, off: nat, size: nat)
    requires OnPage(start, off) && 1 <= size <= 3
    requires (start + off) % 0x1_0000 / 256 == start / 256
    requires ((start + off) % 0x1_0000 + size - 1) % 0x1_0000 / 256 == start / 256
    ensures OnPage(start, off + size)
    ensures (start + off + size) % 0x1_0000 == ((start + off) % 0x1_0000 + size) % 0x1_0000
  {
    assert start + off < 0x1_0000;
  }

  lemma AppendOff(code: seq<Insn>, i: Insn)
    ensures Off(code + [i], |code| + 1) == Off(code, |code|) + i.def.size
  {
    OffPrefix(code, [i], |code|);
    assert (code + [i])[|code|] == i;
  }

  lemma AtPrefix(start: word, code: seq<Insn>, more: seq<Insn>, k: nat)
    requires k <= |code|
    ensures At(start, code + more, k) == At(start, code, k)
  {
    hide Off;
    OffPrefix(code, more, k);
  }

  lemma AppendMatches(code: seq<Insn>, start: word, m: Memory, i: Insn)
    requires Matches(code, start, m) && i == Fetch(m, At(start, code, |code|))
    ensures Matches(code + [i], start, m)
  {
    hide Fetch, At;
    var more := code + [i];
    forall k | 0 <= k < |more|
      ensures more[k] == Fetch(m, At(start, more, k))
    {
      AtPrefix(start, code, [i], k);
    }
  }

  lemma AppendInsn(code: seq<Insn>, start: word, m: Memory, i: Insn)
    requires Decoded(code) && OnPage(start, Off(code, |code|)) && Matches(code, start, m)
    requires At(start, code, |code|) / 256 == start / 256
    requires i == Fetch(m, At(start, code, |code|)) && Fits(start, code, i)
    ensures Decoded(code + [i]) && OnPage(start, Off(code + [i], |code| + 1)) && Matches(code + [i], start, m)
    ensures At(start, code + [i], |code| + 1) == (At(start, code, |code|) + i.def.size) % 0x1_0000
  {
    hide Fetch, Matches, OnPage;
    AppendMatches(code, start, m, i);
    AppendOff(code, i);
    PageStep(start, Off(code, |code|), i.def.size);
  }

  /** A block that still matches memory is a prefix of what the builder would
      produce now; it need not be all of it, because the builder may have
      stopped at an opcode that the block does not cover. */
  lemma FreshBuildExtends(b: Block, m: Memory, rebuilt: seq<Insn>)
    requires WellBuilt(b) && Matches(b.code, b.start, m) && Built(rebuilt, b.start, m)
    ensures b.code <= rebuilt
  {
    hide Fetch, EndsBlock, DefOk, At, Off, OnPage, BuildStops, Fits;
    if |rebuilt| < |b.code| {
      SameDecode(b.code, rebuilt, b.start, m, |rebuilt|);
      BuilderGoesOn(b, rebuilt);
      assert false;
    }
    SameDecode(b.code, rebuilt, b.start, m, |b.code|);
  }

  lemma BuilderGoesOn(b: Block, prefix: seq<Insn>)
    requires WellBuilt(b) && |prefix| < |b.code| && forall k :: 0 <= k < |prefix| ==> b.code[k] == prefix[k]
    ensures !BuildStops(prefix, b.start) && Fits(b.start, prefix, b.code[|prefix|])
    ensures At(b.start, prefix, |prefix|) == At(b.start, b.code, |prefix|)
  {
    hide EndsBlock;
    var n := |prefix|;
    OffSame(b.code, prefix, b.start, n);
    OffGrows(b.code, n + 1, |b.code|);
    InsidePage(b.start, Off(b.code, n), b.code[n].def.size);
  }

  lemma {:induction false} SameDecode(c1: seq<Insn>, c2: seq<Insn>, start: word, m: Memory, n: nat)
    requires n <= |c1| && n <= |c2| && Matches(c1, start, m) && Matches(c2, start, m)
    ensures forall k :: 0 <= k < n ==> c1[k] == c2[k]
  {
    hide Fetch, At, Off;
    if n > 0 {
      SameDecode(c1, c2, start, m, n - 1);
      OffSame(c1, c2, start, n - 1);
    }
  }

  lemma {:induction false} OffSame(c1: seq<Insn>, c2: seq<Insn>, start: word, n: nat)
    requires n <= |c1| && n <= |c2| && forall k :: 0 <= k < n ==> c1[k] == c2[k]
    ensures Off(c1, n) == Off(c2, n) && At(start, c1, n) == At(start, c2, n)
  {
    if n > 0 {
      OffSame(c1, c2, start, n - 1);
    }
  }

  lemma InsidePage(start: word, off: nat, size: nat)
    requires 1 <= size && OnPage(start, off + size)
    ensures (start + off) % 0x1_0000 == start + off && (start + off) / 256 == start / 256
    ensures ((start + off) % 0x1_0000 + size - 1) % 0x1_0000 / 256 == start / 256
  {}

  /** A block ends after the routines that always leave it, and after STP and
      WAI; a conditional branch does not end it. */
  lemma EndsBlockIff(i: Insn)
    requires i.def == Def(i.opcode)
    ensures EndsBlock(i) <==> i.def.op.BitBranch? || i.def.op in {BRA, JMP, JSR, RTS, BRK, RTI, STP, WAI}
  {
    var d := Def(i.opcode);
    hide Def;
    assert RowOk(i.opcode, d);
  }

  /** The builder stops after 64 instructions, after one that ends the block, and
      before one that does not fit on the page; otherwise never. */
  lemma BuiltEnds(code: seq<Insn>, start: word, m: Memory)
    requires Built(code, start, m)
    ensures |code| <= 64 && start % 256 + Off(code, |code|) <= 256
    ensures || |code| == 64 || (code != [] && EndsBlock(code[|code| - 1]))
            || start % 256 + Off(code, |code|) + Fetch(m, At(start, code, |code|)).def.size > 256
    ensures code == [] <==> start % 256 + Fetch(m, start).def.size > 256
  {
    hide Fetch, EndsBlock, Straight, Matches, Decoded, Off, DefOk;
    var next := Fetch(m, At(start, code, |code|));
    assert DefOk(next.def);
    SizeInRange(next.def);
    LeavesPage(start, Off(code, |code|), next.def.size);
    if code == [] {
      AtStart(start, code);
    } else {
      FirstInsn(code, start, m);
    }
  }

  lemma SizeInRange(d: InstrDef)
    requires DefOk(d)
    ensures 1 <= d.size <= 3
  {}

  lemma FirstInsn(code: seq<Insn>, start: word, m: Memory)
    requires code != [] && Decoded(code) && Matches(code, start, m)
    ensures code[0] == Fetch(m, start) && Fetch(m, start).def.size <= Off(code, |code|)
  {
    hide Fetch, At;
    AtStart(start, code);
    OffGrows(code, 1, |code|);
    assert Off(code, 1) == code[0].def.size;
  }

  lemma AtStart(start: word, code: seq<Insn>)
    ensures At(start, code, 0) == start && Off(code, 0) == 0
  {}

  lemma LeavesPage(start: word, off: nat, size: nat)
    requires OnPage(start, off) && 1 <= size <= 3
    ensures (start + off) % 0x1_0000 / 256 != start / 256 ==> start % 256 + off == 256
    ensures ((start + off) % 0x1_0000 + size - 1) % 0x1_0000 / 256 != start / 256 ==> start % 256 + off + size > 256
  {}

  // ---------------------------------------------------------------- covering

  /** jit_block_contains_addr, on the span. */
  predicate Contains(start: word, end: word, a: word) {
    if start < end then start <= a < end
    else if start > end then start <= a || a < end
    else true
  }

  /** jit_block_overlaps_page, on the span. */
  predicate OverlapsPage(start: word, end: word, p: byte) {
    if start == end then true
    else if start < end then !(end <= 256 * p || start > 256 * p + 255)
    else start <= 256 * p + 255 || end > 256 * p
  }

  /** The bytes the instructions were decoded from. */
  predicate Covers(b: Block, a: word) {
    b.start <= a < b.start + Len(b)
  }

  lemma LenPositive(b: Block)
    requires WellBuilt(b)
    ensures 1 <= Len(b) <= 256
  {
    OffGrows(b.code, 0, |b.code|);
  }

  /** The wrapping span test is exact, and the full-64K case never arises. */
  lemma SpanExact(b: Block, a: word)
    requires WellBuilt(b)
    ensures b.start != b.end && (b.end < b.start ==> b.end == 0 && b.start / 256 == 0xFF)
    ensures Contains(b.start, b.end, a) <==> Covers(b, a)
  {
    hide Decoded, Straight;
    LenPositive(b);
  }

  /** Page confinement: invalidating by overlapped page and by code page come to
      the same thing. */
  lemma PageConfined(b: Block, p: byte)
    requires WellBuilt(b)
    ensures OverlapsPage(b.start, b.end, p) <==> b.start / 256 == p
  {
    hide Decoded, Straight;
    LenPositive(b);
  }

  // --------------------------------------------------- stores and staleness

  /** The store address `v` reaches a physical byte of the block. */
  predicate Touches(b: Block, m: Memory, v: word) {
    Phys(m, b.start) <= Phys(m, v) < Phys(m, b.start) + Len(b)
  }

  lemma PhysOnPage(m: Memory, start: word, a: word)
    requires start <= a && a / 256 == start / 256
    ensures Phys(m, a) == Phys(m, start) + (a - start)
  {}

  /** Touching a block is storing through an alias of one of its bytes. */
  lemma TouchesIsAlias(b: Block, m: Memory, v: word)
    requires WellBuilt(b)
    ensures Touches(b, m, v) <==> exists a: word :: Covers(b, a) && Alias(m, v, a)
  {
    hide Decoded, Straight, Phys;
    if Touches(b, m, v) {
      var a := b.start + (Phys(m, v) - Phys(m, b.start));
      PhysOnPage(m, b.start, a);
      assert Covers(b, a) && Alias(m, v, a);
    }
    if a: word :| Covers(b, a) && Alias(m, v, a) {
      PhysOnPage(m, b.start, a);
    }
  }

  predicate SameByte(m: Memory, m': Memory, a: int) {
    Load(m', a % 0x1_0000) == Load(m, a % 0x1_0000)
  }

  /** A fetch depends only on the bytes of the instruction. */
  lemma FetchFrame(m: Memory, m': Memory, pc: word)
    requires var size := Fetch(m, pc).def.size;
             SameByte(m, m', pc) && (size > 1 ==> SameByte(m, m', pc + 1)) && (size > 2 ==> SameByte(m, m', pc + 2))
    ensures Fetch(m', pc) == Fetch(m, pc)
  {
    hide Def, Load;
  }

  /** Bytes `ws` does not touch stay as they were. */
  lemma UntouchedBytes(b: Block, m: Memory, ws: seq<Write>, a: word)
    requires WellBuilt(b) && Covers(b, a) && forall j :: 0 <= j < |ws| ==> !Touches(b, m, ws[j].addr)
    ensures Load(StoreAll(m, ws), a) == Load(m, a)
  {
    hide Decoded, Straight, Phys, StoreAll, Load;
    PhysOnPage(m, b.start, a);
    forall j | 0 <= j < |ws|
      ensures !Alias(m, ws[j].addr, a)
    {
      assert !Touches(b, m, ws[j].addr);
    }
    StoreAllFrame(m, ws, a);
  }

  /** The bytes of an instruction are bytes of its block. */
  lemma InsnCovered(b: Block, k: nat)
    requires WellBuilt(b) && k < |b.code|
    ensures var pc, size := At(b.start, b.code, k), b.code[k].def.size;
            && 1 <= size <= 3 && b.start <= pc && pc + size <= b.start + Len(b)
            && pc / 256 == b.start / 256 && pc + size <= 256 * (b.start / 256) + 256
  {
    hide Straight;
    OffGrows(b.code, k + 1, |b.code|);
    InsidePage(b.start, Off(b.code, k), b.code[k].def.size);
  }

  lemma UntouchedInsn(b: Block, m: Memory, ws: seq<Write>, k: nat)
    requires WellBuilt(b) && k < |b.code| && b.code[k] == Fetch(m, At(b.start, b.code, k))
    requires forall j :: 0 <= j < |ws| ==> !Touches(b, m, ws[j].addr)
    ensures b.code[k] == Fetch(StoreAll(m, ws), At(b.start, b.code, k))
  {
    hide Fetch, Touches, StoreAll, Load, WellBuilt, At, Len;
    var pc, size := At(b.start, b.code, k), b.code[k].def.size;
    InsnCovered(b, k);
    UntouchedBytes(b, m, ws, pc);
    if size > 1 {
      UntouchedBytes(b, m, ws, pc + 1);
    }
    if size > 2 {
      UntouchedBytes(b, m, ws, pc + 2);
    }
    FetchFrame(m, StoreAll(m, ws), pc);
  }

  /** Stores that touch no byte of a block leave it equal to memory. */
  lemma UntouchedMatches(b: Block, m: Memory, ws: seq<Write>)
    requires WellBuilt(b) && Matches(b.code, b.start, m)
    requires forall j :: 0 <= j < |ws| ==> !Touches(b, m, ws[j].addr)
    ensures Matches(b.code, b.start, StoreAll(m, ws))
  {
    hide Fetch, Touches, StoreAll, At;
    var m' := StoreAll(m, ws);
    forall k | 0 <= k < |b.code|
      ensures b.code[k] == Fetch(m', At(b.start, b.code, k))
    {
      UntouchedInsn(b, m, ws, k);
    }
  }

  /** A remap that leaves the block's own page alone leaves it equal to memory. */
  lemma SamePageMatches(b: Block, m: Memory, m': Memory)
    requires WellBuilt(b) && Matches(b.code, b.start, m)
    requires m'.bytes == m.bytes && m'.paged == m.paged && m'.pages[b.start / 256] == m.pages[b.start / 256]
    ensures Matches(b.code, b.start, m')
  {
    hide Fetch, Straight, At;
    forall k | 0 <= k < |b.code|
      ensures b.code[k] == Fetch(m', At(b.start, b.code, k))
    {
      SamePageInsn(b, m, m', k);
    }
  }

  lemma SamePageInsn(b: Block, m: Memory, m': Memory, k: nat)
    requires WellBuilt(b) && k < |b.code| && b.code[k] == Fetch(m, At(b.start, b.code, k))
    requires m'.bytes == m.bytes && m'.paged == m.paged && m'.pages[b.start / 256] == m.pages[b.start / 256]
    ensures b.code[k] == Fetch(m', At(b.start, b.code, k))
  {
    hide Fetch, WellBuilt, At, SameByte;
    var pc, size := At(b.start, b.code, k), b.code[k].def.size;
    InsnCovered(b, k);
    SamePageBytes(b.start, pc, size, m, m');
    FetchFrame(m, m', pc);
  }

  lemma SamePageBytes(start: word, pc: word, size: nat, m: Memory, m': Memory)
    requires pc / 256 == start / 256 && pc + size <= 256 * (start / 256) + 256 && size <= 3
    requires m'.bytes == m.bytes && m'.paged == m.paged && m'.pages[start / 256] == m.pages[start / 256]
    ensures size > 0 ==> SameByte(m, m', pc)
    ensures size > 1 ==> SameByte(m, m', pc + 1)
    ensures size > 2 ==> SameByte(m, m', pc + 2)
  {
    hide SameByte;
    if size > 0 {
      SamePageByte(start, pc, m, m');
    }
    if size > 1 {
      SamePageByte(start, pc + 1, m, m');
    }
    if size > 2 {
      SamePageByte(start, pc + 2, m, m');
    }
  }

  lemma SamePageByte(start: word, a: word, m: Memory, m': Memory)
    requires start / 256 == a / 256
    requires m'.bytes == m.bytes && m'.paged == m.paged && m'.pages[start / 256] == m.pages[start / 256]
    ensures SameByte(m, m', a)
  {
    assert a % 0x1_0000 == a;
  }

  // ------------------------------------------------------- physical tagging

  /** The `uint16_t len` of the source. */
  function SpanLen(b: Block): nat {
    (b.end - b.start) % 0x1_0000
  }

  lemma SpanLenIsLen(b: Block)
    requires WellBuilt(b)
    ensures SpanLen(b) == Len(b)
  {
    hide Decoded, Straight;
    LenPositive(b);
  }

  /** The physical address is counted for this block by the reference counters. */
  predicate PhysCounted(b: Block, pa: word) {
    match b.tag
    case NoTag => false
    case PageTag(p) => pa / 256 == p
    case ByteTag(s) => s <= pa < s + SpanLen(b)
  }

  /** The match of jit_invalidate_blocks_for_phys_addr; the end of the physical
      span is truncated to 16 bits. */
  predicate PhysMatch(b: Block, pa: word) {
    match b.tag
    case NoTag => false
    case PageTag(p) => pa / 256 == p
    case ByteTag(s) => !(pa < s || pa >= (s + SpanLen(b)) % 0x1_0000)
  }

  /** The tag jit_compile_block computes under the map of `m`. */
  predicate TagOk(b: Block, m: Memory) {
    b.tag == if m.paged then ByteTag(Phys(m, b.start)) else NoTag
  }

  /** Exactly when the match finds a block holding the physical byte: when the
      physical span ends below $FFFF. */
  lemma PhysMatchExact(b: Block, m: Memory, v: word)
    requires WellBuilt(b) && TagOk(b, m) && m.paged
    ensures PhysCounted(b, Phys(m, v)) <==> Touches(b, m, v)
    ensures PhysMatch(b, Phys(m, v)) <==> Touches(b, m, v) && Phys(m, b.start) + Len(b) < 0x1_0000
  {
    hide Decoded, Straight;
    LenPositive(b);
    SpanLenIsLen(b);
    PhysOnPage(m, b.start, b.start + Len(b) - 1);
  }

  /** At most one virtual page maps to physical page $FF. */
  predicate TopPageUnaliased(m: Memory) {
    m.paged ==> forall p, q :: 0 <= p < 256 && 0 <= q < 256 && m.pages[p] == 0xFF && m.pages[q] == 0xFF ==> p == q
  }

  /** Blocks whose every store is caught: those whose physical span ends below
      $FFFF, and all of them (`all`) while physical page $FF has one virtual page. */
  predicate Seen(b: Block, m: Memory, all: bool) {
    all || !m.paged || Phys(m, b.start) + Len(b) < 0x1_0000
  }

  /** The blocks an event at `v` discards: by virtual span, or by physical match
      when the event was a physical hit. */
  predicate Discards(b: Block, m: Memory, v: word) {
    Contains(b.start, b.end, v) || PhysMatch(b, Phys(m, v))
  }

  /** An event discards every block whose bytes it changed, if physical page $FF
      has a single virtual page; on other pages, always. */
  lemma DiscardsTouched(b: Block, m: Memory, v: word)
    requires WellBuilt(b) && TagOk(b, m) && Touches(b, m, v)
    ensures TopPageUnaliased(m) || Phys(m, b.start) + Len(b) < 0x1_0000 ==> Discards(b, m, v)
  {
    hide Decoded, Straight;
    SpanExact(b, v);
    LenPositive(b);
    if m.paged {
      PhysMatchExact(b, m, v);
      PhysOnPage(m, b.start, b.start + Len(b) - 1);
      if Phys(m, b.start) + Len(b) == 0x1_0000 {
        assert m.pages[b.start / 256] == 0xFF && m.pages[v / 256] == 0xFF;
      }
    }
  }

  lemma SeenDiscards(b: Block, m: Memory, v: word, all: bool)
    requires WellBuilt(b) && TagOk(b, m) && Touches(b, m, v) && Seen(b, m, all) && (all ==> TopPageUnaliased(m))
    ensures Discards(b, m, v)
  {
    hide WellBuilt, TagOk, Touches, Discards, Phys, Len;
    DiscardsTouched(b, m, v);
  }

  /** An event never discards a block it did not touch. */
  lemma DiscardsOnlyTouched(b: Block, m: Memory, v: word)
    requires WellBuilt(b) && TagOk(b, m) && Discards(b, m, v)
    ensures Touches(b, m, v)
  {
    hide Decoded, Straight;
    SpanExact(b, v);
    LenPositive(b);
    if Contains(b.start, b.end, v) {
      PhysOnPage(m, b.start, v);
    } else {
      PhysMatchExact(b, m, v);
    }
  }
}
