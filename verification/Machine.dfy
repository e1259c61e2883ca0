/** Bytes, the status register, the address space and the processor state
    shared by the interpreter and the JIT. */
module Machine {

  type byte = x: int | 0 <= x < 0x100
  type word = x: int | 0 <= x < 0x1_0000

  const STACK_START := 0x0100
  const VECTOR_IRQ := 0xFFFE

  datatype Option<+T> = None | Some(value: T)

  // ---------------------------------------------------------------- bits

  /** The eight bits of a byte, named after the status register P. */
  datatype Flags = Flags(n: bool, v: bool, u: bool, b: bool,
                         d: bool, i: bool, z: bool, c: bool)

  function Weight(on: bool, w: nat): nat {
    if on then w else 0
  }

  function Nibble(p: bool, q: bool, r: bool, s: bool): (h: nat)
    ensures h < 16
  {
    Weight(p, 8) + Weight(q, 4) + Weight(r, 2) + Weight(s, 1)
  }

  function Pack(f: Flags): byte {
    16 * Nibble(f.n, f.v, f.u, f.b) + Nibble(f.d, f.i, f.z, f.c)
  }

  function Unpack(x: byte): Flags {
    var h, l := x / 16, x % 16;
    Flags(h >= 8, h % 8 >= 4, h % 4 >= 2, h % 2 >= 1,
          l >= 8, l % 8 >= 4, l % 4 >= 2, l % 2 >= 1)
  }

  lemma NibbleBits(h: nat, p: bool, q: bool, r: bool, s: bool)
    requires h < 16
    ensures h == Nibble(p, q, r, s)
            <==> (h >= 8) == p && (h % 8 >= 4) == q && (h % 4 >= 2) == r && (h % 2 >= 1) == s
  {}

  lemma SplitNibbles(h: nat, l: nat)
    requires h < 16 && l < 16
    ensures (16 * h + l) / 16 == h && (16 * h + l) % 16 == l
  {}

  /** A byte and its eight bits carry the same information. */
  lemma PackUnpack(x: byte)
    ensures Pack(Unpack(x)) == x
  {
    var f := Unpack(x);
    NibbleBits(x / 16, f.n, f.v, f.u, f.b);
    NibbleBits(x % 16, f.d, f.i, f.z, f.c);
  }

  lemma UnpackPack(f: Flags)
    ensures Unpack(Pack(f)) == f
  {
    hide Nibble;
    hide Weight;
    var h, l := Nibble(f.n, f.v, f.u, f.b), Nibble(f.d, f.i, f.z, f.c);
    SplitNibbles(h, l);
    NibbleBits(h, f.n, f.v, f.u, f.b);
    NibbleBits(l, f.d, f.i, f.z, f.c);
  }

  function Both(p: Flags, q: Flags): Flags {
    Flags(p.n && q.n, p.v && q.v, p.u && q.u, p.b && q.b, p.d && q.d, p.i && q.i, p.z && q.z, p.c && q.c)
  }

  function Either(p: Flags, q: Flags): Flags {
    Flags(p.n || q.n, p.v || q.v, p.u || q.u, p.b || q.b, p.d || q.d, p.i || q.i, p.z || q.z, p.c || q.c)
  }

  function Differ(p: Flags, q: Flags): Flags {
    Flags(p.n != q.n, p.v != q.v, p.u != q.u, p.b != q.b, p.d != q.d, p.i != q.i, p.z != q.z, p.c != q.c)
  }

  function And(x: byte, y: byte): byte {
    Pack(Both(Unpack(x), Unpack(y)))
  }

  function Or(x: byte, y: byte): byte {
    Pack(Either(Unpack(x), Unpack(y)))
  }

  function Xor(x: byte, y: byte): byte {
    Pack(Differ(Unpack(x), Unpack(y)))
  }

  /** Bit 7 of the low byte of a wider value: the `& 0x80` tests of the source. */
  predicate Bit7(x: nat) {
    x / 128 % 2 == 1
  }

  /** `1 << k` for a bit number. */
  function BitMask(k: nat): byte
    requires k < 8
  {
    match k
    case 0 => 1 case 1 => 2 case 2 => 4 case 3 => 8
    case 4 => 16 case 5 => 32 case 6 => 64 case 7 => 128
  }

  /** A C `(int8_t)` cast. */
  function Signed(x: byte): int {
    if x < 128 then x else x - 256
  }

  // -------------------------------------------------------------- memory

  /** The bus seen by the guest. `bytes` is the flat physical memory below 64K;
      a store to an address no RAM device backs is ignored. When `paged`, the
      MMU maps each virtual page to the physical page in `pages`. */
  datatype Space = Space(bytes: seq<byte>, backed: seq<bool>, paged: bool, pages: seq<byte>)

  type Memory = s: Space | |s.bytes| == 0x1_0000 && |s.backed| == 0x1_0000 && |s.pages| == 0x100
    ghost witness Space(seq(0x1_0000, _ => 0), seq(0x1_0000, _ => true), false, seq(0x100, _ => 0))

  function Phys(m: Memory, v: word): word {
    if m.paged then 256 * m.pages[v / 256] + v % 256 else v
  }

  function Load(m: Memory, v: word): byte {
    m.bytes[Phys(m, v)]
  }

  function Store(m: Memory, v: word, x: byte): Memory {
    if m.backed[Phys(m, v)] then m.(bytes := m.bytes[Phys(m, v) := x]) else m
  }

  function LoadWord(m: Memory, lo: word, hi: word): word {
    Load(m, lo) + 256 * Load(m, hi)
  }

  /** One guest store. */
  datatype Write = Write(addr: word, val: byte)

  /** A run of stores, in order. */
  function StoreAll(m: Memory, ws: seq<Write>): Memory
    decreases |ws|
  {
    if ws == [] then m else StoreAll(Store(m, ws[0].addr, ws[0].val), ws[1..])
  }

  /** Two memories with the same devices and the same page map. */
  predicate SameLayout(m: Memory, m': Memory) {
    m'.backed == m.backed && m'.paged == m.paged && m'.pages == m.pages
  }

  /** Two virtual addresses that reach the same physical byte. */
  predicate Alias(m: Memory, v: word, w: word) {
    Phys(m, v) == Phys(m, w)
  }

  /** A run of stores changes no byte but those it addresses, through any alias. */
  lemma {:induction false} StoreAllFrame(m: Memory, ws: seq<Write>, v: word)
    requires forall k :: 0 <= k < |ws| ==> !Alias(m, ws[k].addr, v)
    ensures SameLayout(m, StoreAll(m, ws))
    ensures Load(StoreAll(m, ws), v) == Load(m, v)
    decreases |ws|
  {
    if ws != [] {
      var m1 := Store(m, ws[0].addr, ws[0].val);
      assert !Alias(m, ws[0].addr, v);
      assert forall k :: 0 <= k < |ws[1..]| ==> ws[1..][k] == ws[k + 1];
      StoreAllFrame(m1, ws[1..], v);
    }
  }

  lemma {:induction false} StoreAllLayout(m: Memory, ws: seq<Write>)
    ensures SameLayout(m, StoreAll(m, ws))
    decreases |ws|
  {
    if ws != [] {
      StoreAllLayout(Store(m, ws[0].addr, ws[0].val), ws[1..]);
    }
  }

  lemma {:induction false} StoreAllAppend(m: Memory, ws: seq<Write>, us: seq<Write>)
    ensures StoreAll(m, ws + us) == StoreAll(StoreAll(m, ws), us)
    decreases |ws|
  {
    if ws == [] {
      assert ws + us == us;
    } else {
      assert (ws + us)[1..] == ws[1..] + us;
      StoreAllAppend(Store(m, ws[0].addr, ws[0].val), ws[1..], us);
    }
  }

  // ----------------------------------------------------------- processor

  datatype Regs = Regs(a: byte, x: byte, y: byte, pc: word, sp: byte, p: Flags)

  datatype StopReason = StopStp | StopWai | StopHost | StopStepped | StopError

  datatype Run = Running | Stepping | Stopped(reason: StopReason)

  /** The guest-visible machine: registers, memory, interrupt line, run state. */
  datatype Cpu = Cpu(regs: Regs, mem: Memory, irq: bool, run: Run)

  /** What one instruction (or interrupt entry) does: the new registers, the
      stores in the order the bus sees them, the interrupt line, the run state. */
  datatype Effect = Effect(regs: Regs, writes: seq<Write>, irq: bool, run: Run)

  function Apply(c: Cpu, e: Effect): Cpu {
    Cpu(e.regs, StoreAll(c.mem, e.writes), e.irq, e.run)
  }
}
