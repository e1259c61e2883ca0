/** The bus: lists of RAM devices that behave as one flat byte map. */
module Bus {
  import opened Machine

  type addr32 = x: int | 0 <= x < 0x1_0000_0000

  const BUS_SIZE := 0x1_0000

  /** device_ram.c: a RAM device; its size is a uint16_t. */
  class Ram {
    const data: array<byte>

    constructor (size: word)
      ensures data.Length == size && fresh(data) && forall k :: 0 <= k < size ==> data[k] == 0
    {
      data := new byte[size](_ => 0);
    }

    method Read1(off: nat) returns (val: byte)
      requires off < data.Length
      ensures val == data[off]
    {
      val := data[off];
    }

    method Write1(off: nat, val: byte)
      requires off < data.Length
      modifies data
      ensures data[..] == old(data[..])[off := val]
    {
      data[off] := val;
    }
  }

  /** A device and the address its first byte answers to. */
  datatype Mapping = Mapping(dev: Ram, base: addr32)

  /** A byte of a device. */
  datatype Cell = Cell(dev: Ram, off: nat)

  /** The range test of the lists. The sum is a uint32_t in the extended list;
      below 64K it cannot wrap. */
  predicate Answers(m: Mapping, a: addr32) {
    m.base <= a < (m.base + m.dev.data.Length) % 0x1_0000_0000
  }

  /** The last mapping of the list that answers. */
  function LastOf(ms: seq<Mapping>, a: addr32): (r: Option<Cell>)
    ensures r.Some? ==> exists k :: 0 <= k < |ms| && Answers(ms[k], a) && r.value == Cell(ms[k].dev, a - ms[k].base)
  {
    if ms == [] then None
    else if Answers(ms[|ms| - 1], a) then Some(Cell(ms[|ms| - 1].dev, a - ms[|ms| - 1].base))
    else LastOf(ms[..|ms| - 1], a)
  }

  /** The first one. */
  function FirstOf(ms: seq<Mapping>, a: addr32): (r: Option<Cell>)
    ensures r.Some? ==> exists k :: 0 <= k < |ms| && Answers(ms[k], a) && r.value == Cell(ms[k].dev, a - ms[k].base)
  {
    if ms == [] then None
    else if Answers(ms[0], a) then Some(Cell(ms[0].dev, a - ms[0].base))
    else
      var r := FirstOf(ms[1..], a);
      assert r.Some? ==> exists k :: 0 <= k < |ms| - 1 && Answers(ms[1..][k], a) && ms[1..][k] == ms[k + 1];
      r
  }

  lemma {:induction false} FirstOfAppend(ms: seq<Mapping>, m: Mapping, a: addr32)
    ensures FirstOf(ms + [m], a) ==
            if FirstOf(ms, a).Some? then FirstOf(ms, a)
            else if Answers(m, a) then Some(Cell(m.dev, a - m.base)) else None
  {
    if ms != [] {
      assert (ms + [m])[1..] == ms[1..] + [m];
      FirstOfAppend(ms[1..], m, a);
    }
  }

  lemma LastOfAppend(ms: seq<Mapping>, m: Mapping, a: addr32)
    ensures LastOf(ms + [m], a) == if Answers(m, a) then Some(Cell(m.dev, a - m.base)) else LastOf(ms, a)
  {
    assert (ms + [m])[..|ms|] == ms;
  }

  /** The loops of the two searches. */
  method AccessDevice(ms: seq<Mapping>, a: word) returns (cell: Option<Cell>)
    ensures cell == LastOf(ms, a)
  {
    cell := None;
    for k := 0 to |ms|
      invariant cell == LastOf(ms[..k], a)
    {
      assert ms[..k + 1] == ms[..k] + [ms[k]];
      LastOfAppend(ms[..k], ms[k], a);
      if Answers(ms[k], a) {
        cell := Some(Cell(ms[k].dev, a - ms[k].base));
      }
    }
    assert ms[..|ms|] == ms;
  }

  method AccessDevicePhys(ms: seq<Mapping>, a: addr32) returns (cell: Option<Cell>)
    ensures cell == if a < BUS_SIZE then None else FirstOf(ms, a)
  {
    cell := None;
    if a < BUS_SIZE {
      return;
    }
    for k := 0 to |ms|
      invariant FirstOf(ms[..k], a).None?
    {
      FirstOfAppend(ms[..k], ms[k], a);
      assert ms[..k + 1] == ms[..k] + [ms[k]];
      if Answers(ms[k], a) {
        FirstOfPrefix(ms, k + 1, a);
        return Some(Cell(ms[k].dev, a - ms[k].base));
      }
    }
    assert ms[..|ms|] == ms;
  }

  lemma {:induction false} FirstOfPrefix(ms: seq<Mapping>, k: nat, a: addr32)
    requires k <= |ms| && FirstOf(ms[..k], a).Some?
    ensures FirstOf(ms, a) == FirstOf(ms[..k], a)
    decreases |ms| - k
  {
    if k < |ms| {
      FirstOfAppend(ms[..k], ms[k], a);
      assert ms[..k + 1] == ms[..k] + [ms[k]];
      FirstOfPrefix(ms, k + 1, a);
    } else {
      assert ms[..k] == ms;
    }
  }

  /** No device appears twice. */
  predicate Distinct(ms: seq<Mapping>) {
    forall i, j :: 0 <= i < j < |ms| ==> ms[i].dev.data != ms[j].dev.data
  }

  /** Distinct addresses of one list are distinct cells. */
  lemma OneList(ms: seq<Mapping>, i: nat, j: nat, a: addr32, b: addr32)
    requires Distinct(ms) && i < |ms| && j < |ms| && a != b
    ensures ms[i].dev.data != ms[j].dev.data || a - ms[i].base != b - ms[j].base
  {}

  class AddressBus {
    var low: seq<Mapping>
    var high: seq<Mapping>

    constructor ()
      ensures Flat() && forall a: addr32 :: Target(a).None?
    {
      low, high := [], [];
    }

    ghost predicate Valid()
      reads this
    {
      forall k :: 0 <= k < |low| ==> low[k].base + low[k].dev.data.Length <= BUS_SIZE
    }

    /** No device is mapped twice. */
    ghost predicate Flat()
      reads this
    {
      Valid() && Distinct(low + high)
    }

    ghost function Arrays(): set<array<byte>>
      reads this
    {
      set k | 0 <= k < |low + high| :: (low + high)[k].dev.data
    }

    /** The device byte an address reaches. */
    function Target(a: addr32): (r: Option<Cell>)
      reads this
      ensures r.Some? ==> r.value.off < r.value.dev.data.Length && r.value.dev.data in Arrays()
    {
      var r := if a < BUS_SIZE then LastOf(low, a) else FirstOf(high, a);
      assert r.Some? ==> r.value.dev.data in Arrays() by {
        if r.Some? {
          Found(a);
        }
      }
      r
    }

    lemma Found(a: addr32)
      requires (if a < BUS_SIZE then LastOf(low, a) else FirstOf(high, a)).Some?
      ensures exists k :: 0 <= k < |low + high| && Answers((low + high)[k], a) &&
                (if a < BUS_SIZE then LastOf(low, a) else FirstOf(high, a)).value == Cell((low + high)[k].dev, a - (low + high)[k].base)
    {
      var c := (if a < BUS_SIZE then LastOf(low, a) else FirstOf(high, a)).value;
      if a < BUS_SIZE {
        var k :| 0 <= k < |low| && Answers(low[k], a) && c == Cell(low[k].dev, a - low[k].base);
        assert (low + high)[k] == low[k];
      } else {
        var k :| 0 <= k < |high| && Answers(high[k], a) && c == Cell(high[k].dev, a - high[k].base);
        assert (low + high)[|low| + k] == high[k];
      }
    }

    /** The flat memory: unmapped addresses read $FF. */
    function Byte(a: addr32): byte
      reads this, Arrays()
    {
      match Target(a)
      case None => 0xFF
      case Some(c) => c.dev.data[c.off]
    }

    /** Two addresses reach the same device byte. */
    predicate SameCell(a: addr32, b: addr32)
      reads this
    {
      && Target(a).Some? && Target(b).Some?
      && Target(a).value.dev.data == Target(b).value.dev.data && Target(a).value.off == Target(b).value.off
    }

    /** With no device mapped twice, two addresses never share a device byte. */
    lemma CellsDistinct(a: addr32, b: addr32)
      requires Flat() && a != b
      ensures !SameCell(a, b)
    {
      if Target(a).None? || Target(b).None? {
        return;
      }
      hide Distinct, LastOf, FirstOf;
      Found(a);
      Found(b);
      var ms := low + high;
      var i :| 0 <= i < |ms| && Answers(ms[i], a) && Target(a).value == Cell(ms[i].dev, a - ms[i].base);
      var j :| 0 <= j < |ms| && Answers(ms[j], b) && Target(b).value == Cell(ms[j].dev, b - ms[j].base);
      OneList(ms, i, j, a, b);
    }

    /** The memory of the processor model: the bytes below 64K and whether a
        device backs them. */
    ghost function Memory64(): Memory
      reads this, Arrays()
    {
      Space(seq(BUS_SIZE, a requires 0 <= a < BUS_SIZE reads this, Arrays() => Byte(a)),
            seq(BUS_SIZE, a requires 0 <= a < BUS_SIZE reads this => Target(a).Some?),
            false, seq(0x100, _ => 0))
    }

    /** bus_read_1_phys; below 64K it is bus_read_1. */
    method Read1Phys(a: addr32) returns (val: byte)
      ensures val == Byte(a) && (Target(a).None? ==> val == 0xFF)
      ensures a < BUS_SIZE ==> val == Load(Memory64(), a)
    {
      var cell;
      if a < BUS_SIZE {
        cell := AccessDevice(low, a);
      } else {
        cell := AccessDevicePhys(high, a);
      }
      assert cell == Target(a);
      if cell.None? {
        return 0xFF;
      }
      val := cell.value.dev.Read1(cell.value.off);
    }

    /** bus_write_1_phys: exactly the addresses of that device byte change, which
        is one address when no device is mapped twice, and none when nothing is
        mapped there. */
    method Write1Phys(a: addr32, val: byte)
      modifies Arrays()
      ensures forall b: addr32 :: Byte(b) == if SameCell(a, b) then val else old(Byte(b))
      ensures Flat() ==> forall b: addr32 :: Byte(b) == if b == a && Target(a).Some? then val else old(Byte(b))
    {
      hide LastOf, FirstOf, Distinct;
      var cell;
      if a < BUS_SIZE {
        cell := AccessDevice(low, a);
      } else {
        cell := AccessDevicePhys(high, a);
      }
      assert cell == Target(a);
      if cell.None? {
        return;
      }
      cell.value.dev.Write1(cell.value.off, val);
      forall b: addr32
        ensures Byte(b) == if SameCell(a, b) then val else old(Byte(b))
        ensures Flat() ==> Byte(b) == if b == a then val else old(Byte(b))
      {
        if Flat() && b != a {
          CellsDistinct(a, b);
        }
      }
    }

    /** bus_write_1 is the store of the processor model. */
    method Write1(a: word, val: byte)
      requires Flat()
      modifies Arrays()
      ensures Memory64() == Store(old(Memory64()), a, val)
      ensures forall b: addr32 :: Byte(b) == if b == a && Target(a).Some? then val else old(Byte(b))
    {
      hide LastOf, FirstOf, Distinct;
      Write1Phys(a, val);
      assert Memory64().bytes == Store(old(Memory64()), a, val).bytes;
    }

    /** bus_device_add: the new device hides what it overlaps; one that does not
        fit is refused. */
    method DeviceAdd(d: Ram, base: word)
      requires Valid()
      modifies this
      ensures Valid() && (old(Flat()) && d.data !in old(Arrays()) ==> Flat())
      ensures if base + d.data.Length > BUS_SIZE then low == old(low) && high == old(high)
              else forall a: addr32 ::
                     Byte(a) == if base <= a < base + d.data.Length then d.data[a - base] else old(Byte(a))
    {
      hide LastOf, FirstOf;
      if base + d.data.Length > BUS_SIZE {
        return;
      }
      var m := Mapping(d, base);
      if Flat() && d.data !in Arrays() {
        StillDistinct(low, high, m);
      }
      low := low + [m];
      forall a: addr32
        ensures Byte(a) == if base <= a < base + d.data.Length then d.data[a - base] else old(Byte(a))
      {
        LastOfAppend(old(low), m, a);
      }
    }

    /** bus_device_add_phys: the new device answers only where no earlier one
        does, and never below 64K. */
    method DeviceAddPhys(d: Ram, base: addr32)
      requires Valid()
      modifies this
      ensures Valid() && (old(Flat()) && d.data !in old(Arrays()) ==> Flat())
      ensures forall a: addr32 ::
                Byte(a) == if a >= BUS_SIZE && old(Target(a)).None? && base <= a < (base + d.data.Length) % 0x1_0000_0000
                           then d.data[a - base] else old(Byte(a))
    {
      hide LastOf, FirstOf;
      var m := Mapping(d, base);
      high := high + [m];
      assert low + high == (old(low) + old(high)) + [m];
      assert forall k :: 0 <= k < |old(low) + old(high)| ==> (old(low) + old(high))[k].dev.data in old(Arrays());
      forall a: addr32
        ensures Byte(a) == if a >= BUS_SIZE && old(Target(a)).None? && Answers(m, a) then d.data[a - base] else old(Byte(a))
      {
        FirstOfAppend(old(high), m, a);
      }
    }

    /** bus_load_buf: all of the buffer or, if it would run past 64K, none. */
    method LoadBuf(addr: word, buf: seq<byte>) returns (ok: bool)
      requires Flat() && 0 < |buf| < BUS_SIZE
      modifies Arrays()
      ensures ok == (addr + |buf| <= BUS_SIZE)
      ensures Memory64() == if ok then StoreAll(old(Memory64()), Loads(addr, buf)) else old(Memory64())
      ensures forall b: addr32 ::
                Byte(b) == if ok && addr <= b < addr + |buf| && Target(b).Some? then buf[b - addr] else old(Byte(b))
    {
      hide LastOf, FirstOf, Distinct, Memory64, StoreAll, Store, Target;
      ok := addr + |buf| <= BUS_SIZE;
      if ok {
        assert StoreAll(Memory64(), Loads(addr, buf[..0])) == Memory64() by { NoLoads(Memory64(), addr, buf[..0]); }
        for i := 0 to |buf|
          invariant Memory64() == StoreAll(old(Memory64()), Loads(addr, buf[..i]))
          invariant forall b: addr32 ::
                      Byte(b) == if addr <= b < addr + i && Target(b).Some? then buf[b - addr] else old(Byte(b))
        {
          LoadsAppend(old(Memory64()), addr, buf[..i], buf[i]);
          assert buf[..i + 1] == buf[..i] + [buf[i]];
          Write1(addr + i, buf[i]);
        }
        assert buf[..|buf|] == buf;
      }
    }
  }

  /** The stores that load a buffer. */
  function Loads(addr: word, buf: seq<byte>): seq<Write>
    requires addr + |buf| <= BUS_SIZE
  {
    seq(|buf|, i requires 0 <= i < |buf| => Write(addr + i, buf[i]))
  }

  lemma NoLoads(m: Memory, addr: word, buf: seq<byte>)
    requires buf == []
    ensures StoreAll(m, Loads(addr, buf)) == m
  {}

  lemma LoadsAppend(m: Memory, addr: word, buf: seq<byte>, x: byte)
    requires addr + |buf| < BUS_SIZE
    ensures StoreAll(m, Loads(addr, buf + [x])) == Store(StoreAll(m, Loads(addr, buf)), addr + |buf|, x)
  {
    hide Store;
    var w := Write(addr + |buf|, x);
    assert Loads(addr, buf + [x]) == Loads(addr, buf) + [w];
    StoreAllAppend(m, Loads(addr, buf), [w]);
    assert [w][1..] == [];
  }

  lemma StillDistinct(low: seq<Mapping>, high: seq<Mapping>, m: Mapping)
    requires Distinct(low + high) && forall k :: 0 <= k < |low + high| ==> (low + high)[k].dev.data != m.dev.data
    ensures Distinct(low + [m] + high)
  {
    var ms, ns := low + high, low + [m] + high;
    assert forall k :: 0 <= k < |low| ==> ns[k] == ms[k];
    assert forall k :: |low| < k < |ns| ==> ns[k] == ms[k - 1];
  }
}
